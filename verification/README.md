# Verified models of four Buildbot components

This project models four state machines and codecs of the repository in Dafny and proves what they promise.
`dafny verify dfyconfig.toml` checks everything.

**Durable launch authority** (`Authority*.dfy`, `Launch*.dfy`, `LocalExecution.dfy`, `Migration.dfy`).
`AuthorityTables` has the five tables, the validators and every transaction as a function on tables.
`AuthorityHandle` says what one call on a handle may come to when BEGIN, a statement, COMMIT or ROLLBACK goes
wrong, including a COMMIT that takes effect and still reports failure. `AuthorityOutcomes` says of every transaction
when it goes through, what it changes and what it answers, and which calls cost the handle, in terms of rows and
without the functions that define them; `AuthorityReach` proves that the validators accept exactly the stores these
transactions can produce. `AuthorityStores` is the store as an object with its validator loops; every method is proved
to do exactly what `AuthorityHandle.Attempt` says.
`LaunchProtocol` runs any number of controllers, each a program counter for `execute_local_command` or
`run_workgraph_client` plus a handle, with crashes between any two steps and during COMMITs; `LaunchSafety` has the
invariant and `LaunchTheorems` the theorems over all runs. `LocalExecutions` has the two programs as methods, with
complete contracts for one controller; `SoloClient`, `SoloOutcome` and `SoloExecution` prove that both programs of the
state machine, left alone, meet the contracts of these methods. `Migration` covers the chain from schema version 1 to 5.

**Canonical encodings** (`Bytes`, `Utf8`, `Base64Url`, `ExecutionIdentity`, `CommandSpec`, `CanonicalSpec`,
`ExecutionKeyFormat`, `LocalCommandSpec`). Decoders are written for UTF-8 (section 3 of RFC 3629), base64url (section 5 of RFC 4648),
8-byte big-endian frames and both payloads, and every encoder is proved to be inverted by its decoder; the bytes
themselves are pinned by the formats, down to the golden vector of the repository's own tests.

**BaseLock** (`LockState`, `BaseLock`, `LockSteps`, `LockRuns`). The lock as a value, the class that updates it in
place, what each operation does to whom it finds queued, and theorems over all runs of claim, release, wait, stop and
setMaxCount.

**Gerrit poll/stream merge** (`Gerrit*.dfy`). `GerritMerge` has the source's state as a value and what a line and a
poll do to it, with stream lines arriving at every yield. An event is recorded when the source accepts it; a line of a
followed stream is handed on only after a write to the database, so `GerritLedger` keeps the order of recording apart
from the order of handing on. `GerritSources` is the class. `GerritExactness` proves one poll exact, and `GerritLimits`
says when one is not. `GerritStream` keeps track of the stream's place in the server's log, and `GerritRuns` is the
source against a server with a growing log, disordered and belated answers, and a stream that falls silent and is
started again at any time, also at the yields of a poll. `GerritPolls` and `GerritSilence` prove what polls keep;
`GerritTimeliness` proves that over all runs the record is exact if and only if every poll is timely, `GerritTheorems`
has the other theorems over runs, `GerritModes` those about following the stream, losing it and recovering,
`GerritDelivery` those about handing on, `GerritRestart` what is saved for the next run of the service, and
`GerritWitnesses` runs in which the code falls short.

## Assumptions

- SQLite gives one writer at a time and validated snapshots; COMMIT and ROLLBACK may fail or have an unknown outcome.
- SHA-256, the JSON event hash, `os.path.isabs`, target verification, checkout preparation, preflight, the launched
  process and the publisher are parameters: any result is possible. Where a hash has to tell commands apart, the
  theorem offers a collision of the digest as its other outcome. Every process step that the client takes besides the
  launch itself is not an authorised launch.
- Strings are sequences of Unicode scalar values, the domain in which keys and scopes can be stored.
- Gerrit's log is ordered by second, has no two equal events and gets no events older than the start of the service;
  one poll handler runs at a time; a run begins without event hashes of an earlier one, except in `GerritRestart`.
  Events that appear while a poll is handled are taken to be in the log when it begins, which makes no difference to
  the source.

## Where the code falls short of its own description

- An access that asks for more units than maxCount can be queued. When it leaves unwoken, the code does not wake the
  next waiter, and an idle lock keeps a queue nobody will wake (`LockRuns.OversizedWaiterStrandsQueue`). So it does when
  the capacity has been lowered to zero and a waiter for units is next (`LockRuns.LoweredCapacityStrandsQueue`). A step
  leaves the head of an idle lock's queue uncalled in exactly these two cases (`LockRuns.HeadLostExactly`).
- isAvailable counts waiters ahead by number and _tryWakeUp by units. They disagree exactly when the two comparisons of
  `LockRuns.WakeDisagreesExactly` differ, which a run reaches (`LockRuns.WeightedWaitersDisagree`) and which cannot
  happen among waiters of one unit (`LockRuns.WakeMatchesAvailability`).
- The assertion in _addOwner compares the exclusive counter with maxCount where the counting one is meant; the model
  keeps the comparison as it is written, and `BaseLocks.BaseLock.AddOwner` and `ClaimLock` promise the one that is meant.
- A poll can overtake the stream. It leaves the record exact if and only if it is timely
  (`GerritTimeliness.TimelyExactly`), and a run is exact throughout if and only if all its polls are
  (`GerritTimeliness.RunsAreExactExactly`); polls that have no more of the log than the stream are
  (`GerritTheorems.LeadingStreamIsTimely`).
- A switch is not timely when a queued line is older than what has been recorded: it is recorded out of order, and twice
  if a poll had it (`GerritLimits.HandOverOrderExactly`, `GerritWitnesses.LateLineIsRepeated`). Nor is it when the stream,
  followed from then on, has not got to all that was polled up to the first queued second
  (`GerritTheorems.CaughtUpPollSwitches`): lines of a followed stream are not checked at all
  (`GerritLimits.FollowedLineExactly`), so the rest is recorded twice (`GerritWitnesses.OvertakenLineIsRepeated`).
- A poll made for a silent but synchronized stream that brings nothing newer is overtaken by lines that arrive while
  it is handed on (`GerritLimits.SilentPollOrderExactly`, `GerritWitnesses.SilentPollIsOvertaken`).
- A stream that is started again keeps the old queue, and a switch follows it even when that happens while the switch is
  made. What the stream missed since lines have been queued is left out by the switch exactly when it is later than the
  first queued second (`GerritTheorems.SwitchLeavesOutExactly`, `GerritWitnesses.LossyReconnectLoses`).
- A stop saves the hashes of the last second's events that this run of the service has recorded, and forgets those it
  had loaded. The next run takes an event of that second again exactly when it was known by a loaded hash alone
  (`GerritRestart.RestartRemembersExactly`), as after two stops with no event in between
  (`GerritRestart.SecondRestartForgets`).
- Two lines of a followed stream can be handed on in the other order when the timestamp write of the first one takes
  longer (`GerritLedger.HandingOnOrderExactly`, `GerritLedger.SlowWriteIsOvertaken`).

## Model

| member | source | states |
|---|---|---|
| LaunchTheorems.AtMostOneLaunch | master/buildbot/umbilical_local_execution.py:314-355 | over every run of any number of controllers, with crashes and COMMITs of unknown outcome, two launch events for one key are the same event, and the key's durable row has left INTENT |
| LaunchTheorems.OrphanNeverLaunched | master/buildbot/umbilical_local_execution.py:322-329 | a key whose claimer has crashed, failed or moved on without launching is never launched by anybody later |
| LaunchTheorems.HistoryIsWriteOnce | master/buildbot/umbilical_authority.py:1158-1173 | between any two states of a run registrations, bindings and admissions are kept unchanged, generations do not fall, launch rows only move forward and terminal exit codes are final |
| LaunchTheorems.NeverMalformed | master/buildbot/umbilical_authority.py:657-729 | a store only this code writes passes every validator in every reachable state, no guarded update misses its row, and a call reports it malformed only when the database fails during validation |
| LaunchTheorems.FencingHolds | master/buildbot/umbilical_authority.py:1417-1519 | grants for a scope strictly increase and stay in range, and no admission or claim commits under a generation smaller than one granted before it |
| LaunchTheorems.GenerationsCountGrants | master/buildbot/umbilical_authority.py:1175-1216 | in every reachable state the current generation of a scope is the number of acquisitions that took effect, unacknowledged ones included, and the k-th was answered with k |
| LaunchTheorems.SupersededNeverClaimed | master/buildbot/umbilical_authority.py:1573-1703 | a key admitted but unclaimed when its generation is superseded is never claimed or launched afterwards |
| LaunchTheorems.LaunchMatchesBinding | master/buildbot/umbilical_authority.py:1608-1676 | the command of every physical launch hashes to the hash its key is bound to, at the launch and ever after |
| LaunchTheorems.BindingFixesCommand | master/buildbot/umbilical_local_execution.py:308-355 | all commands ever launched under one key and binding, even in different runs, are the same specification, or two of them exhibit a collision of the digest |
| LaunchTheorems.PublicationsAgree | master/buildbot/umbilical_workgraph_client.py:424-480 | every publication carries the terminal exit code on durable record, so all publications for a key are equal |
| LaunchTheorems.TargetHasOneResult | master/buildbot/umbilical_workgraph_client.py:406-480 | publications about one target carry one exit code, whichever client runs made them |
| LaunchProtocol.UninterruptedCallIsAttempt | master/buildbot/umbilical_authority.py:1144-1173 | Begin and Finish of the state machine, uninterrupted, are one call on the handle |
| LaunchProtocol.CrashGoesEitherWay | master/buildbot/umbilical_local_execution.py:322-329 | a controller that crashes with an open transaction may leave all of it or nothing; neither outcome launches or publishes anything |
| LaunchSafety.NextKeepsInv | master/buildbot/umbilical_workgraph_client.py:406-480 | every step of every controller keeps the protocol invariant: what each program counter may rely on, open transactions, launches and publications |
| LaunchSafety.InvAlways | master/buildbot/umbilical_local_execution.py:314-355 | the protocol invariant holds in every state of every run |
| AuthorityHandle.AttemptIsAllOrNothing | master/buildbot/umbilical_authority.py:1095-1173 | whatever fails, a call applies its whole transaction or nothing, what it acknowledges has taken effect, and the store stays valid and keeps its history |
| AuthorityHandle.UncertainHandleRefuses | master/buildbot/umbilical_authority.py:1125-1173 | a claim, a mark or a record that has changed the store without an acknowledgement is reported as uncertain, and the handle then refuses every further call |
| AuthorityTables.TransactKeepsValid | master/buildbot/umbilical_authority.py:797-961 | every transaction keeps all relations the validators check and never finds them broken |
| AuthorityTables.TransactExtends | master/buildbot/umbilical_authority.py:1175-1831 | no transaction changes or drops a recorded fact |
| AuthorityTables.ClaimSucceedsExactly | master/buildbot/umbilical_authority.py:1573-1703 | on a valid store a claim goes through if and only if the key is bound to this hash, admitted under this generation, the generation is current, and nothing was claimed |
| AuthorityTables.SpentKey | master/buildbot/umbilical_authority.py:1661-1668 | a launched key can never be claimed again and a terminal row never advanced |
| AuthorityTables.LaunchLifeCycle | master/buildbot/umbilical_authority.py:1573-1831 | claim, mark and record in this order go through and end in the terminal row with everything else unchanged |
| AuthorityOutcomes.ArgumentsAreCheckedExactly | master/buildbot/umbilical_authority.py:964-1008 | which arguments a call has to come with, and which error is raised for the first bad one |
| AuthorityOutcomes.AcquireSucceedsExactly | master/buildbot/umbilical_authority.py:1175-1216 | on a valid store an acquisition goes through if and only if the scope has no generation or one below 2^63 - 1; the reply is one more than the current generation, 1 if there is none, and no other row changes |
| AuthorityOutcomes.RegisterSucceeds | master/buildbot/umbilical_authority.py:1253-1287 | a registration always goes through, adds this key alone, and tells whether it is new |
| AuthorityOutcomes.BindSucceedsExactly | master/buildbot/umbilical_authority.py:1317-1371 | a binding goes through if and only if the key is registered and has no other hash; each error, the new row, and nothing else |
| AuthorityOutcomes.AdmitSucceedsExactly | master/buildbot/umbilical_authority.py:1417-1519 | an admission goes through if and only if the key is bound, the generation is the current one, and no other admission is on record; each error, the new row, and nothing else |
| AuthorityOutcomes.ClaimOutcomeExactly | master/buildbot/umbilical_authority.py:1573-1703 | the row a claim writes, and which of the seven errors a refused claim raises, said of the rows |
| AuthorityOutcomes.MarkSucceedsExactly | master/buildbot/umbilical_authority.py:1705-1766 | a mark goes through if and only if the key was claimed under this hash and not moved since; then its row alone changes, to UNKNOWN |
| AuthorityOutcomes.RecordSucceedsExactly | master/buildbot/umbilical_authority.py:1768-1831 | a record goes through if and only if the key is in UNKNOWN under this hash; then its row alone changes, to TERMINAL with this exit code |
| AuthorityOutcomes.ReadsTell | master/buildbot/umbilical_authority.py:1218-1242 | what the observations tell, of registered keys and others |
| AuthorityOutcomes.UnacknowledgedCommit | master/buildbot/umbilical_authority.py:1158-1173 | an unacknowledged COMMIT poisons the handle and is reported as uncertain for a claim, a mark and a record; any other call keeps its handle unless the ROLLBACK fails |
| AuthorityOutcomes.FailureBeforeCommit | master/buildbot/umbilical_authority.py:1144-1156 | a call that fails before its COMMIT changes nothing, and poisons the handle if and only if a transaction was open and its ROLLBACK fails; which error is passed on |
| AuthorityOutcomes.BrokenStoreIsRefused | master/buildbot/umbilical_authority.py:663-729 | on a store that the validators reject no call goes through, reads included, and no row changes |
| AuthorityOutcomes.PoisonedExactly | master/buildbot/umbilical_authority.py:1125-1173 | exactly when a call leaves a poisoned handle behind, for every call and every fault |
| AuthorityOutcomes.SuccessExactly | master/buildbot/umbilical_authority.py:1144-1173 | an acknowledged COMMIT is the only success; exactly when a call is reported as uncertain |
| AuthorityReach.ValidExactlyReachable | master/buildbot/umbilical_authority.py:597-961 | the validators accept a store if and only if some sequence of calls that go through leads to it from the empty one |
| AuthorityStores.ValidateGenerationsTable | master/buildbot/umbilical_authority.py:732-752 | the row loop accepts exactly the valid generation tables |
| AuthorityStores.ValidateBindingsTable | master/buildbot/umbilical_authority.py:769-795 | the row loop accepts exactly the valid binding tables |
| AuthorityStores.ValidateAdmissionsTable | master/buildbot/umbilical_authority.py:797-861 | the row loop accepts exactly the admissions related to a key, a binding and a generation at least as new |
| AuthorityStores.ValidateLaunchesTable | master/buildbot/umbilical_authority.py:863-961 | the row loop accepts exactly the launches that agree with binding, admission, generation and exit code rules |
| AuthorityStores.ValidateStore | master/buildbot/umbilical_authority.py:553-595 | the validator of a current store accepts exactly the valid tables |
| AuthorityStores.OpenExisting | master/buildbot/umbilical_authority.py:319-342 | opening a store at the current version succeeds exactly when it can be read and passes the validator, with a usable handle, and is refused as malformed otherwise; Migration.StoreFile.Validate has the other versions |
| AuthorityStores.AuthorityStore.Connected | master/buildbot/umbilical_authority.py:264-267 | a new handle is usable and on its database |
| AuthorityStores.AuthorityStore.Poison | master/buildbot/umbilical_authority.py:1134-1142 | a poisoned handle has lost its connection for good |
| AuthorityStores.AuthorityStore.Close | master/buildbot/umbilical_authority.py:1900-1910 | closing leaves a poisoned handle poisoned and any other closed |
| AuthorityStores.AuthorityStore.RollbackAfterFailure | master/buildbot/umbilical_authority.py:1144-1156 | the failure is passed on, unless ROLLBACK fails, which poisons the handle |
| AuthorityStores.AuthorityStore.Begin | master/buildbot/umbilical_authority.py:1125-1132 | a call that does not get as far as a validated transaction ends as the handle and its arguments say |
| AuthorityStores.AuthorityStore.Commit | master/buildbot/umbilical_authority.py:1158-1173 | the end of a transaction for each outcome of COMMIT |
| AuthorityStores.AuthorityStore.AcquireGenerationFor | master/buildbot/umbilical_authority.py:1175-1216 | handle, durable tables and result are those of one atomic acquisition attempt |
| AuthorityStores.AuthorityStore.RegisterExecutionKey | master/buildbot/umbilical_authority.py:1253-1287 | handle, durable tables and result are those of one atomic registration attempt, which reports whether the key is new |
| AuthorityStores.AuthorityStore.BindCommandSpecHash | master/buildbot/umbilical_authority.py:1317-1371 | handle, durable tables and result are those of one atomic binding attempt; a different hash conflicts |
| AuthorityStores.AuthorityStore.AdmitExecution | master/buildbot/umbilical_authority.py:1417-1519 | handle, durable tables and result are those of one atomic admission attempt, fenced by the current generation |
| AuthorityStores.AuthorityStore.ClaimExecutionLaunch | master/buildbot/umbilical_authority.py:1573-1703 | handle, durable tables and result are those of one atomic claim attempt, with its checks in order and the uncertain COMMIT |
| AuthorityStores.AuthorityStore.AdvanceLaunch | master/buildbot/umbilical_authority.py:1720-1766 | the guarded UPDATE of one launch row and its error cases |
| AuthorityStores.AuthorityStore.MarkExecutionLaunchUnknown | master/buildbot/umbilical_authority.py:1705-1766 | handle, durable tables and result are those of one atomic move from INTENT to UNKNOWN |
| AuthorityStores.AuthorityStore.RecordExecutionTerminalResult | master/buildbot/umbilical_authority.py:1768-1831 | handle, durable tables and result are those of one atomic move from UNKNOWN to TERMINAL with an exit code |
| AuthorityStores.AuthorityStore.Observe | master/buildbot/umbilical_authority.py:1218-1242 | a read returns one validated snapshot and changes no durable row |
| LocalExecutions.ConsumeAuthority | master/buildbot/umbilical_local_execution.py:336-342 | claim and mark succeed exactly when the key may be claimed and both COMMITs are acknowledged; otherwise the row is absent, INTENT or UNKNOWN |
| LocalExecutions.ExecuteLocalCommand | master/buildbot/umbilical_local_execution.py:314-355 | the process is launched exactly when both transactions were acknowledged, once, with UNKNOWN durable at that moment; the row, result and error of every outcome of launcher and record |
| LocalExecutions.RegisterAndBind | master/buildbot/umbilical_workgraph_client.py:450-452 | success adds exactly the registration and the binding, and comes exactly when the key has no other hash and neither call fails; no launch row changes |
| LocalExecutions.AdmitCurrent | master/buildbot/umbilical_workgraph_client.py:453-464 | success means admitted under the generation current for the fixed scope, and returns it; it comes exactly when the key is not admitted under another generation and no call fails |
| LocalExecutions.Establish | master/buildbot/umbilical_workgraph_client.py:450-464 | success adds exactly registration, binding and admission, and comes exactly when no fault and no conflicting history prevents it |
| LocalExecutions.ExecuteAndPublish | master/buildbot/umbilical_workgraph_client.py:466-473 | the exit code is published exactly when the execution has recorded it |
| LocalExecutions.ObservePrior | master/buildbot/umbilical_workgraph_client.py:425-428 | the two reads return whether the key is known and its launch row, exactly when neither fails |
| LocalExecutions.FirstRun | master/buildbot/umbilical_workgraph_client.py:440-480 | at most one launch, of the bound command after UNKNOWN was recorded; at most one publication, of the code on record; and exactly when it launches, publishes and succeeds, in terms of the rows it finds and the faults on its way |
| LocalExecutions.RunWithStore | master/buildbot/umbilical_workgraph_client.py:424-480 | a launched key is replayed without launching, writing, or publishing anything but its recorded code, and exactly when the two reads go through; any other key has its first run |
| LocalExecutions.RunWorkgraphClient | master/buildbot/umbilical_workgraph_client.py:406-480 | the whole client: nothing happens without a verified target and a store that opens, and otherwise the outcome is a replay or a first run |
| LocalExecutions.LaterRunsReplay | master/buildbot/umbilical_workgraph_client.py:424-438 | after a client run that launched, every later run for the key launches nothing and publishes only the code the first one published |
| SoloClient.CallIsSteps | master/buildbot/umbilical_workgraph_client.py:424-464 | each store call of the client program is one or two enabled steps of the state machine |
| SoloClient.EffectIsStep | master/buildbot/umbilical_workgraph_client.py:440-473 | preparing, launching, ending and publishing are single enabled steps of the state machine |
| SoloClient.SoloRunMeetsContract | master/buildbot/umbilical_workgraph_client.py:424-480 | left alone, the client program of the state machine ends, and with the outcome the client method promises, for every schedule of faults |
| SoloExecution.SoloExecutionMeetsContract | master/buildbot/umbilical_local_execution.py:314-355 | a local execution of the state machine, left alone, launches, records and ends as the method for it promises, for every schedule of faults |
| SoloOutcome.SoloRunIsExact | master/buildbot/umbilical_workgraph_client.py:424-480 | the client program of the state machine launches, publishes and ends well for exactly the stores, surroundings and fault schedules for which the client method does |
| Migration.MigrationIsExact | master/buildbot/umbilical_authority.py:396-461 | an attempt leaves the exact old store or the exact next version, reports success only for the latter, and succeeds when nothing fails |
| Migration.TablesByVersion | master/buildbot/umbilical_authority.py:579-655 | which tables a valid store of each version has |
| Migration.MigrationFailsExactly | master/buildbot/umbilical_authority.py:396-461 | which error an attempt on a valid store reports for which fault, and when the store has been migrated all the same |
| Migration.MalformedStoreIsKept | master/buildbot/umbilical_authority.py:396-461 | a store that is not valid for its version is left as it is, with this error |
| Migration.MigrationsLoseNothing | master/buildbot/umbilical_authority.py:344-461 | after any sequence of attempts the store is exactly valid for some version not below the old one and has the same rows |
| Migration.RetryCompletes | master/buildbot/umbilical_authority.py:396-461 | a clean attempt after any number of failed ones completes the step |
| Migration.ChainCompletes | master/buildbot/umbilical_authority.py:344-394 | clean attempts for each version in order, with any others before, between and after, end at the current version, exactly valid, with the same rows |
| Migration.StoreFile.Validate | master/buildbot/umbilical_authority.py:553-577 | a store is usable exactly when it is valid at the current version, and asks for migration exactly when it is valid at an earlier one |
| Migration.StoreFile.MigrateOneTable | master/buildbot/umbilical_authority.py:396-461 | the migration transaction, statement by statement, for every fault |
| Utf8.EncodeDecodes | master/buildbot/umbilical_execution_identity.py:44-50 | every string is recovered from its UTF-8 bytes |
| Utf8.DecodeIsStrict | master/buildbot/umbilical_execution_identity.py:44-50 | the decoder accepts nothing but encodings |
| Utf8.EncodeCharTable | master/buildbot/umbilical_local_execution.py:225-245 | the bytes of a character, by the table of section 3 of RFC 3629 |
| Bytes.U64IsBigEndian | master/buildbot/umbilical_local_execution.py:248-253 | a length is framed by its eight base-256 digits, highest first |
| Base64Url.EncodeDecodes | master/buildbot/umbilical_execution_identity.py:72-75 | every byte string is recovered from base64url with padding |
| Base64Url.AlphabetIs | master/buildbot/umbilical_execution_identity.py:74-75 | the 64 letters of the URL-safe alphabet, of section 5 of RFC 4648 |
| Base64Url.QuadMeans | master/buildbot/umbilical_execution_identity.py:74-75 | three bytes and their four letters are the same 24-bit number |
| Base64Url.PaddingMeans | master/buildbot/umbilical_execution_identity.py:74-75 | one or two bytes left over are padded with zeros and equals signs |
| ExecutionIdentity.DeriveSucceedsExactly | master/buildbot/umbilical_execution_identity.py:37-54 | a key is derived exactly when all four identities are non-empty and can be framed |
| ExecutionIdentity.DeriveDecodes | master/buildbot/umbilical_execution_identity.py:57-75 | all four identities are read back from a derived key |
| ExecutionIdentity.DeriveInjective | master/buildbot/umbilical_execution_identity.py:57-75 | different identities never share a key |
| ExecutionIdentity.DeriveFailsForTheFirst | master/buildbot/umbilical_execution_identity.py:35-54 | a refused derivation names the first of the four identities that is empty or too long |
| ExecutionKeyFormat.KeyFormat | master/buildbot/umbilical_execution_identity.py:57-75 | the key is its prefix and the base64url of the domain bytes and the four framed identities, in this order, all constants written out |
| ExecutionKeyFormat.GoldenKey | master/buildbot/test/unit/test_umbilical_execution_identity.py:38-52 | the key of the golden vector |
| CommandSpec.PostInitMeans | master/buildbot/umbilical_local_execution.py:53-118 | validation passes exactly on absolute paths, a non-empty argv, framable NUL-free texts, strictly sorted names and a positive timeout in range |
| CommandSpec.PostInitReportsTheFirst | master/buildbot/umbilical_local_execution.py:53-118 | validation reports the first error in the order executable, argv, directory, environment, timeout |
| CommandSpec.TextErrorMeans | master/buildbot/umbilical_local_execution.py:222-245 | exactly when a text is rejected for being empty, containing NUL or not fitting a frame |
| CommandSpec.PathErrorMeans | master/buildbot/umbilical_local_execution.py:54-76 | exactly when and why a path is rejected |
| CommandSpec.ArgvErrorTells | master/buildbot/umbilical_local_execution.py:58-61 | the error of the arguments is that of the first one that is rejected |
| CommandSpec.EnvironmentErrorTells | master/buildbot/umbilical_local_execution.py:78-108 | the error of the environment is that of the first entry that is rejected, on its own, for repeating a name, or for disorder |
| CommandSpec.SnapshotReportsTheFirst | master/buildbot/umbilical_local_execution.py:137-186 | a snapshot that fails reports the first item that is rejected on its own or for repeating a name, and without one what is wrong with the other fields |
| CommandSpec.LessMeans | master/buildbot/umbilical_local_execution.py:177 | names are ordered by the first byte that differs, a proper prefix coming first |
| CommandSpec.SnapshotCanonicalises | master/buildbot/umbilical_local_execution.py:120-186 | a snapshot never fails on ordering, succeeds exactly on valid fields, and keeps the items in the one valid order |
| CommandSpec.SnapshotIgnoresOrder | master/buildbot/umbilical_local_execution.py:120-186 | mappings with the same items in any order give the same specification |
| CanonicalSpec.CanonicalDecodes | master/buildbot/umbilical_local_execution.py:262-305 | a decoder recovers the exact specification and consumes exactly its bytes |
| CanonicalSpec.CanonicalPrefixFree | master/buildbot/umbilical_local_execution.py:248-305 | equal bytes mean equal specifications, and no encoding starts another |
| CanonicalSpec.BytesFormat | master/buildbot/umbilical_local_execution.py:262-305 | the canonical bytes field by field, domain, labels and lengths written out |
| CanonicalSpec.TextsFormat | master/buildbot/umbilical_local_execution.py:275-300 | arguments and environment items are framed one after the other, in their order |
| CanonicalSpec.HashFormat | master/buildbot/umbilical_local_execution.py:308-311 | the hash is its prefix and the digest of the canonical bytes |
| CanonicalSpec.HashSeparates | master/buildbot/umbilical_local_execution.py:308-311 | specifications with equal hashes are equal, or their canonical bytes are a collision of the digest |
| LocalCommandSpecs.CheckArgv | master/buildbot/umbilical_local_execution.py:60-72 | the argv loop finds the first offending text |
| LocalCommandSpecs.CheckEnvironment | master/buildbot/umbilical_local_execution.py:78-108 | the environment loop finds the first offending entry, repetition or disorder |
| LocalCommandSpecs.PostInit | master/buildbot/umbilical_local_execution.py:53-118 | validation reports the first error in the source's order and none exactly on valid specifications |
| LocalCommandSpecs.CollectItems | master/buildbot/umbilical_local_execution.py:137-176 | the item loop rejects the first invalid or repeated item |
| LocalCommandSpecs.TakeSnapshot | master/buildbot/umbilical_local_execution.py:120-186 | collects, sorts by the UTF-8 bytes of the names and validates, as `CommandSpec.Snapshot` |
| LocalCommandSpecs.CanonicalCommandSpecBytes | master/buildbot/umbilical_local_execution.py:262-305 | the extending loops produce bytes from which the specification is decoded |
| LockState.ClaimKeepsConsistent | master/buildbot/locks.py:136-155 | a claim keeps the accounting: counters equal the sums over owners, exclusive excludes all, one queue entry a requester |
| LockState.ReleaseKeepsConsistent | master/buildbot/locks.py:162-177 | a release keeps the accounting |
| LockState.StopKeepsConsistent | master/buildbot/locks.py:233-253 | leaving the queue keeps the accounting, woken or not |
| LockState.SetMaxCountKeepsConsistent | master/buildbot/locks.py:73-78 | a change of capacity keeps the accounting |
| LockSteps.ReleaseExactly | master/buildbot/locks.py:162-177 | after a release, whether or not others still hold the lock, a waiter is called if and only if it was before or it is its turn now; for requests of one unit, if and only if the lock is available to it |
| LockSteps.SetMaxCountExactly | master/buildbot/locks.py:73-78 | a raised capacity calls exactly those whose turn it is then; a lowered one calls nobody |
| LockSteps.StopExactly | master/buildbot/locks.py:233-253 | a waiter that leaves after it was called has exactly those called whose turn it is then; one that was not called changes nothing else |
| LockSteps.ClaimExactly | master/buildbot/locks.py:136-155 | a claim takes the requester out of the queue, adds its units, and calls nobody |
| LockSteps.WaitExactly | master/buildbot/locks.py:201-231 | whoever cannot be served is queued once, uncalled, in its old place or behind everybody |
| LockSteps.NewcomerAvailableExactly | master/buildbot/locks.py:86-109 | exactly when a requester that is not queued may claim, said of owners and waiters |
| BaseLocks.BaseLock.constructor | master/buildbot/locks.py:45-62 | a new lock is empty and consistent |
| BaseLocks.BaseLock.FindWaiting | master/buildbot/locks.py:80-84 | the index of the requester's first entry, if any |
| BaseLocks.BaseLock.CheckAvailable | master/buildbot/locks.py:86-109 | the loop over the waiters ahead decides availability |
| BaseLocks.BaseLock.TryWakeUp | master/buildbot/locks.py:179-199 | exactly the waiters up to the first one that the running sums stop are woken |
| BaseLocks.BaseLock.SetMax | master/buildbot/locks.py:73-78 | the whole new state; waiters are woken only when capacity rises |
| BaseLocks.BaseLock.AddOwner | master/buildbot/locks.py:111-120 | the requester joins the owners with its units; the source's own assertion is proved, and the one that is meant: an exclusive owner is alone, or the counted units are within maxCount |
| BaseLocks.BaseLock.ClaimLock | master/buildbot/locks.py:136-155 | the whole new state of a claim, empty ones included; after any other an exclusive owner is alone, or the counted units are within maxCount |
| BaseLocks.BaseLock.RemoveOwner | master/buildbot/locks.py:122-134 | one matching owner is removed with its units, or nothing changes |
| BaseLocks.BaseLock.ReleaseLock | master/buildbot/locks.py:162-177 | the whole new state of a release, repeated ones included |
| BaseLocks.BaseLock.WaitUntilMaybeAvailable | master/buildbot/locks.py:201-231 | queued once with a fresh token, or told at once that the lock is available |
| BaseLocks.BaseLock.StopWaitingUntilAvailable | master/buildbot/locks.py:233-253 | the entry is gone, and the queue is woken only if it had been woken |
| LockRuns.AccountingHolds | master/buildbot/locks.py:45-177 | in every reachable state the accounting holds and counted units stay within the largest capacity ever in force |
| LockRuns.ExclusiveOwnerIsAlone | master/buildbot/locks.py:86-134 | an exclusive owner is the only owner |
| LockRuns.BoundedBypass | master/buildbot/locks.py:86-155 | in any run, claims by others while an exclusive waiter is queued number no more than the places it moved up from where it started |
| LockRuns.HeadLostExactly | master/buildbot/locks.py:179-253 | a step leaves the head of an idle lock's queue uncalled if and only if it queues an access larger than maxCount at the front of an idle lock, or calls a waiter for units when maxCount is zero or less |
| LockRuns.NoStuckQueue | master/buildbot/locks.py:179-253 | in every state reached without such a step, an idle lock has woken its first waiter and is available to it once its request fits |
| LockRuns.NoStuckQueueWhileServable | master/buildbot/locks.py:179-253 | while every queued access asks for at most maxCount, an idle lock with a queue has woken its first waiter and is available to it, in every reachable state |
| LockRuns.OversizedWaiterStrandsQueue | master/buildbot/locks.py:244-247 | a run that ends with an idle lock, a queue and nobody woken |
| LockRuns.WakeMatchesAvailability | master/buildbot/locks.py:179-199 | for waiters of one unit, a wake-up pass leaves woken exactly those woken before or available |
| LockRuns.LoweredCapacityStrandsQueue | master/buildbot/locks.py:73-78 | a run in which nobody asks too much that ends, after maxCount is lowered to zero, with an idle lock and an uncalled head it is available to |
| LockRuns.ReachedExactly | master/buildbot/locks.py:179-199 | when the wake-up pass gets to a waiter, said without the running sums of the waiters before it |
| LockRuns.WakeDisagreesExactly | master/buildbot/locks.py:86-199 | the pass and the availability test differ on a waiter if and only if it waits for units behind waiters for units and exactly one of the two comparisons of units lets it pass |
| LockRuns.WeightedWaitersDisagree | master/buildbot/locks.py:105-188 | a run from an empty lock after which a waiter that is available is left asleep |
| GerritSources.GerritChangeSource.constructor | master/buildbot/changes/gerritchangesource.py:597-633 | a new source has recorded nothing and is synchronized only when it does not poll |
| GerritSources.GerritChangeSource.RecordLastSecondEvent | master/buildbot/changes/gerritchangesource.py:796-801 | a new second starts a new list and forgets old hashes |
| GerritSources.GerritChangeSource.UpdateLastEventTs | master/buildbot/changes/gerritchangesource.py:803-807 | a write is started exactly when the last timestamp has changed since the last one |
| GerritSources.GerritChangeSource.StreamProcessStarted | master/buildbot/changes/gerritchangesource.py:789-794 | a started stream is not synchronized, unless there is nothing to poll |
| GerritSources.GerritChangeSource.LineReceivedStream | master/buildbot/changes/gerritchangesource.py:809-839 | an event is queued, or recorded and left waiting for its timestamp write, or handed on at once when none is needed; anything else is ignored |
| GerritSources.GerritChangeSource.WriteFinished | master/buildbot/changes/gerritchangesource.py:837-838 | the waiting event is handed on when its write is done |
| GerritSources.GerritChangeSource.YieldControl | master/buildbot/changes/gerritchangesource.py:923 | the lines of one yield are all processed in order |
| GerritSources.GerritChangeSource.FilterOutAlreadyReceivedEvents | master/buildbot/changes/gerritchangesource.py:841-859 | the loop keeps exactly the unseen events in their order |
| GerritSources.GerritChangeSource.LinesReceivedPoll | master/buildbot/changes/gerritchangesource.py:865-960 | the poll handler's whole effect, lines arriving at every yield included |
| GerritSources.GerritChangeSource.SubmitBatch | master/buildbot/changes/gerritchangesource.py:898-960 | the whole effect of a sorted batch: restart, poll-only and hand-over branches |
| GerritSources.GerritChangeSource.DrainQueue | master/buildbot/changes/gerritchangesource.py:944-952 | the queue, growing meanwhile, is handed on without what the last second has |
| GerritLedger.RecordedOnceHandedOnce | master/buildbot/changes/gerritchangesource.py:832-839 | at all times the recorded events are those handed on and those waiting, each counted once |
| GerritLedger.HandingOnOrderExactly | master/buildbot/changes/gerritchangesource.py:832-839 | events recorded in time order are handed on in time order if and only if none is handed on while one of an earlier second waits for its write |
| GerritLedger.SlowWriteIsOvertaken | master/buildbot/changes/gerritchangesource.py:837-838 | two lines recorded in order and handed on in the other order |
| GerritDelivery.EveryRunHandsOnOnce | master/buildbot/changes/gerritchangesource.py:832-839 | over every run, overtaking polls included, what is handed on and what waits is what was recorded, counted once each; and while the record is exact nothing is handed on twice, in a time order that depends on overtaking writes alone |
| GerritDelivery.LineHandsOnExactly | master/buildbot/changes/gerritchangesource.py:809-839 | which lines and finished writes hand on which event, and which leave it waiting |
| GerritDelivery.EveryRecordIsHandedOn | master/buildbot/changes/gerritchangesource.py:837-839 | over every run, once the writes under way are done, everything recorded has been handed on |
| GerritDelivery.PolledIsHandedOn | master/buildbot/changes/gerritchangesource.py:919-950 | over every run, all that a poll of an unsynchronized source records, queued lines included, has been handed on when the poll is over |
| GerritExactness.BatchMeans | master/buildbot/changes/gerritchangesource.py:841-892 | the batch is sorted, has no event twice, and holds exactly the polled events not recorded and not older than the last second |
| GerritExactness.EmitAllExact | master/buildbot/changes/gerritchangesource.py:919-923 | a batch is recorded in order and whole, while arriving lines are only queued |
| GerritExactness.DrainExact | master/buildbot/changes/gerritchangesource.py:944-952 | after draining, exactly what was recorded before and the final queue are on record, in order and once |
| GerritExactness.PollOnlyExact | master/buildbot/changes/gerritchangesource.py:915-930 | a poll behind the stream records every polled event from the last second on, once and in order, and nothing else |
| GerritExactness.HandOverExact | master/buildbot/changes/gerritchangesource.py:932-960 | the switch records everything polled from the last second up to the first queued one and everything queued before the switch, once and in order, and nothing else |
| GerritTimeliness.StepKeepsInv | master/buildbot/changes/gerritchangesource.py:782-960 | every step of server and stream, restarts at the yields of a poll included, and every timely poll keep the run invariant |
| GerritTimeliness.TimelyExactly | master/buildbot/changes/gerritchangesource.py:865-960 | from every state with the run invariant, a poll leaves the record exact if and only if it is timely: a switch finds no older line queued, and a stream followed after it has got to what was recorded and polled; a batch for a silent stream is neither interrupted by a later line nor followed a second time |
| GerritTimeliness.RunsAreExactExactly | master/buildbot/changes/gerritchangesource.py:580-590 | over every run of whatever server, stream and network may do, the record is at all times ordered, without repetition, from the log and, while the stream is followed, exactly what it has got to but for what a switch passed over, if and only if every poll is timely |
| GerritTheorems.LedRunIsExact | master/buildbot/changes/gerritchangesource.py:580-590 | every run in which each poll has no more of the log than the stream has got to, and brings a silent stream what it had missed of the last second without a later line coming in between, is such a run, so its record is exact; with streams that are started again where they were or with an empty queue, nothing is ever passed over |
| GerritTimeliness.EveryRunIsExact | master/buildbot/changes/gerritchangesource.py:580-590 | the record of every run of timely polls is exact in every state |
| GerritTheorems.LeadingStreamIsTimely | master/buildbot/changes/gerritchangesource.py:934-936 | a poll that has no more than the stream has brought overtakes nothing, and leaves the stream in the lead |
| GerritTheorems.CleanRunLosesNothing | master/buildbot/changes/gerritchangesource.py:789-794 | when the stream is started again only with an empty queue or with nothing missed, during a poll only with nothing missed, nothing is ever skipped or lost |
| GerritTheorems.AnswerLosesNothing | master/buildbot/changes/gerritchangesource.py:865-930 | after a poll that does not switch, every event of the log it was answered from is on record, or lost before |
| GerritTheorems.ObservedIsRecorded | master/buildbot/changes/gerritchangesource.py:796-930 | with an empty queue, every event any unsynchronized poll of a run observed is on record from then on, once, unless a switch had passed it over |
| GerritTheorems.SwitchLeavesOutExactly | master/buildbot/changes/gerritchangesource.py:932-956 | a switch that finds no older line queued leaves out a wanted event if and only if the stream has missed it since lines have been queued, also during the switch, and it is later than the first queued second |
| GerritTheorems.SwitchLosesNothingExactly | master/buildbot/changes/gerritchangesource.py:932-956 | such a switch completes the record if and only if nothing that the stream has missed since lines have been queued is later than the first queued second |
| GerritTheorems.CaughtUpPollSwitches | master/buildbot/changes/gerritchangesource.py:932-957 | an answer past the second of the first queued line makes the source follow the stream; the record is then exact if and only if the stream has got to what was recorded and what was polled up to that second, as it has when the stream leads |
| GerritModes.FlagsExactly | master/buildbot/changes/gerritchangesource.py:782-957 | after every step, exactly when the stream counts as silent and exactly when it is followed, said of what the step brings |
| GerritModes.RestartForgetsSilence | master/buildbot/changes/gerritchangesource.py:899-913 | a poll that brings a newer event to a silent source leaves it unsynchronized and not timed out |
| GerritModes.OnlySilenceTimesOut | master/buildbot/changes/gerritchangesource.py:782-787 | over every run, a source that is not timed out stays so until the stream falls silent |
| GerritModes.RecoversFromSilence | master/buildbot/changes/gerritchangesource.py:899-957 | over every run, once a silent stream has been given up and as long as it is not silent again, the next answer past the first queued second makes the source follow the stream, with an empty queue and an exact record |
| GerritLimits.FollowedLineExactly | master/buildbot/changes/gerritchangesource.py:832-836 | a line of a followed stream keeps the record ordered and without repetition if and only if it is new and not older |
| GerritLimits.HandOverOrderExactly | master/buildbot/changes/gerritchangesource.py:932-952 | the switch records in time order if and only if the first queued line is not older than the last recorded event |
| GerritLimits.SilentPollOrderExactly | master/buildbot/changes/gerritchangesource.py:899-930 | a poll that brings more of the last second to a silent synchronized stream keeps order if and only if no later line is followed before its last event is out |
| GerritRestart.RunSavesLast | master/buildbot/changes/gerritchangesource.py:803-807 | over every run, the last timestamp is the one a write was last started for, whenever nothing is being handled |
| GerritRestart.ReloadedSeesExactly | master/buildbot/changes/gerritchangesource.py:764-777 | which events the next run of the service takes for received |
| GerritRestart.RestartRemembersExactly | master/buildbot/changes/gerritchangesource.py:764-777 | the next run knows all that this run would not take again if and only if no event of the last second is known by a loaded hash alone |
| GerritRestart.FirstBatchAfterRestart | master/buildbot/changes/gerritchangesource.py:841-892 | the first batch of the next run: what is polled of the last second and later, once and in order, but for events with the hash of a recorded one |
| GerritRestart.LoadedHashesFade | master/buildbot/changes/gerritchangesource.py:796-801 | over every run from any state, loaded hashes are forgotten with the second they were saved for, so that they never hide an event of another one |
| GerritRestart.SecondRestartForgets | master/buildbot/changes/gerritchangesource.py:769-776 | two stops with no event in between, after which an event is taken again |
| GerritWitnesses.OvertakenLineIsRepeated | master/buildbot/changes/gerritchangesource.py:936-956 | a run whose switch records an event that the stream has not brought yet, and whose followed stream then brings it again |
| GerritWitnesses.LateLineIsRepeated | master/buildbot/changes/gerritchangesource.py:944-952 | a run in which a line comes in after polls have gone past its second, and the switch records it again and out of order |
| GerritWitnesses.SilentPollIsOvertaken | master/buildbot/changes/gerritchangesource.py:919-923 | a run, by way of a lossy switch, in which a line overtakes a poll of a silent stream |
| GerritWitnesses.LossyReconnectLoses | master/buildbot/changes/gerritchangesource.py:789-794 | a led run with a restart of the stream between two queued lines, whose switch leaves out an event the poll had brought |

## Left out

- SQLite itself: PRAGMAs, WAL, schema text comparison, typeof checks and path handling.
- is_current_generation and the lookups of single rows outside a transaction, which only read.
- Windows path reservation, known folders, checkouts, the GitHub API, preflight and subprocess details.
- Python's own type checks (exact int and str, bool) and lone surrogates.
- RealMasterLock, RealWorkerLock, lock identifiers, release subscriptions and the delivery order of woken deferreds.
- Runs that begin with loaded event hashes, beyond their first batch and how long the hashes count; back-off, watchdog timing, debug logging and poll scheduling.
- The timestamp write at the end of a poll: its yield only delays the next poll; a write that fails for good leaves its event waiting.
- LocalExecutions.RunWorkgraphClient: one controller at a time; other controllers that interleave are in LaunchProtocol.
- Change pollers, mail parsers, contributed scripts and the worker protocol: mainly I/O or easier claims.
