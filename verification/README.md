# Verification of the HTTP key-value server

A Dafny model of the server's logic: a versioned store of many userspaces, a
coordinator that assembles multi-request transactions and executes them
atomically, a binary export format, an authentication cache, the locked HTTP
handlers, and the interleaving of goroutines that all of these run in. `dafny
verify dfyconfig.toml` checks the whole project.

The code that changes things in place is modelled by classes (`Store`,
`AtomicTx`, `Serializable`, `Coordinator`, `Reader`, `Authenticator`,
`Server`). Every method of theirs is proved equal to a function of the content
before the call (modules `StoreSpec`, `CoordinatorSpec`, `CodecSpec`), and the
laws of the system are proved about those functions, over every run.

## What is proved

* **Interleavings** (`Threads`, `Serializability`, `RealTime`, `Interference`,
  `Solo`). Goroutines take single steps: load a record, save a record without the
  global lock, take the lock, copy the content, work on the copy one operation at
  a time, install it or roll back, release. In every interleaving the stored
  values, the counter and the key tables are those of the locked jobs run one
  after the other in lock order, every job answered what it answers there, and the
  order respects real time.
* **Transaction records under interleaving** (`Survival`, `Overwrites`,
  `CommitOnce`, `Races`, `Reachable`). Records are saved outside the lock. Four
  runs show what that does not guarantee: a save lost to an older copy that is
  installed, a fragment lost to another fragment of the same transaction,
  overlapping commits that both take effect, and a committed record overwritten as
  expired by an older sweep. Against them stands the exact condition: a stored
  record stays, and its transaction is not executed again, if and only if no
  goroutine has outstanding work that overwrites it. From it follows that a
  transaction commits at most once when the calls on it take turns, and that its
  record tells whether it did when overdue sweeps take turns too. Every record
  ever stored is consistent all the same, and a stored commit is always real.
* **Whole calls** (`System`, `Lifecycle`, `ExactlyOnce`, `Retransmission`,
  `Confluence`). With calls as steps, in any order, with any arguments and any
  clock readings: the invariant of stored records, by which counting the fragments
  is a test of completeness; exactly-once execution; finality; idempotent
  retransmission; and the same end for every order of arrival.
* **Transaction calls** (`TxCalls`). What creation, fragment, commit, abort, query
  and sweep answer and store in every case, field by field.
* **Execution** (`ExecutionLaws`, `AnswerLaws`, `OutcomeLaws`, `TxDigest`). All or
  nothing, the last writer of a key wins, each answer is read off the content that
  the operations before it leave, and the exact way each execution ends.
* **Isolation** (`Isolation`). Two runs with the same calls in one userspace and
  any calls elsewhere give that userspace the same values and answers, version
  numbers aside.
* **Store** (`StoreCalls`, `StoreLaws`). What each call leaves, distinct versions,
  imports against a map specification, catalogue consistency, complete listings.
* **Export format** (`BigEndian`, `CodecSpec`, `CodecLaws`, `Codec`, `Layout`,
  `RoundTrip`, `DecodeErrors`). The layout by offsets; decoding inverts encoding
  exactly on the records the format admits, accepted files are canonical exactly
  when their type octets are, and others are refused with the error of their first
  defect.
* **Requests** (`Handlers`, `Requests`, `Admission`, `Backup`). What the handlers
  refuse and what every admitted run stores; an export followed by an import
  request restores the userspace if and only if every content type has at most 255
  octets and the whole file keeps the limit on one value.
* **Authentication cache** (`AuthCache`, `AuthLaws`, `AuthSteps`). Authentications
  that no administrative call interrupts never answer differently from the key
  tables. An interrupted one can: a run shows a revoked key that still
  authenticates. How long that lasts, and exactly which fill causes it, is proved.

## Where the code and its documentation differ

The model follows the code.

* The design document calls a repeated commit idempotent. Each commit that
  still waits overwrites the digest (`internal/tx/coordinator.go` line 147), so
  this holds exactly when the digest is repeated
  (`Retransmission.WaitingCommitIffSameDigest`).
* The documented format gives the content type a 16-bit length and the encoder
  writes it, but the decoder stops at 255 octets
  (`internal/importexport/decode.go` line 110). `RoundTrip.RoundTripExact` has
  the exact condition, `RoundTrip.LongContentTypeRefused` the failing family.
* Export followed by import is documented to reproduce the data. The import
  request holds the whole file to the limit on a single value
  (`internal/httpapi/import_export_handlers.go` line 45), so that the export of a
  value of the greatest admitted size is refused with status 413
  (`Backup.LargestValueRefused`). `Backup.BackupExact` and
  `Backup.BackupOfAdmitted` have the exact condition.
* The global lock is documented as making all transactions serializable. It does
  so for values; transaction records are saved without it (`Races.SaveCanBeLost`,
  `Races.FragmentCanBeLost`, `Races.OverlappingCommitsBothRun`,
  `Races.SweepOverwritesCommit`; `Overwrites.StaysIff` has the exact condition).
* A rotated key is documented as no longer valid. A request that resolved it before
  the rotation can file it in the cache after the cache was emptied
  (`internal/auth/auth.go` lines 142-146), where it lives as long as any entry
  (`AuthSteps.RevokedKeyStillAnswers`).
* An expired transaction can still be aborted by its client: only a committed one
  refuses (`internal/tx/coordinator.go` line 161). `ExactlyOnce.StillClosed`
  allows that move and no other.
* The digest covers number, operation id, type, key and body hash of a
  fragment, not its content type (`internal/tx/coordinator.go` line 362).
* The status beside the result of an execution is that of the record before it,
  as `execute` works on a copy of its argument (`internal/tx/coordinator.go`
  line 122). The model returns the same stale status; its laws speak of the
  stored record.

## Model

| member | source | states |
|---|---|---|
| Serializability.LockOrderIsSerial | internal/tx/coordinator.go:199-287 | in every interleaving of goroutines, values, counter and key tables equal the sequential run of the locked jobs in the order they took the lock, no job that took it is missing once it is free, and each answered what it answers in that run |
| Serializability.CopyIsCurrent | internal/storage/storage.go:355-363 | between a copy and its installation no other goroutine changes a value, the counter or a key table or is inside the lock, and the work done on the copy is that of an undisturbed run from the live content |
| Serializability.EndStep | internal/storage/storage.go:434-443 | installing a finished copy, or giving up at a failing operation, has the effect and the answer of the whole job on the content that is live at that moment, although records were saved meanwhile |
| Serializability.JobBlind | internal/httpapi/kv_handlers.go:69-71 | what a locked job answers and does to values, counter and key tables does not depend on the transaction records |
| Solo.AloneIsCall | internal/tx/coordinator.go:96-288 | the two grains agree: every call, made by a goroutine that runs alone from a content with keyed records, ends with the lock free and the content that the call leaves as one step |
| RealTime.RealTimeOrder | internal/lock/serial.go:9-15 | if one call was answered before another took the lock, its job comes first in the lock order and in the log that the interleaving is equivalent to |
| RealTime.PlaceIsWithinCall | internal/httpapi/kv_handlers.go:69-79 | a job's place in the lock order, and the same place in the log, comes after every job that had taken the lock when its call arrived and before every one that takes it after its answer |
| Interference.HolderAdvances | internal/lock/serial.go:9-15 | the holder of the global lock can always take a step, needs only finitely many before it releases, and no other goroutine's step delays or takes the lock: no deadlock |
| Interference.CommitsAreReal | internal/tx/coordinator.go:281-287 | in every interleaving, a record stored as committed was committed by an execution in the history with exactly the result it carries |
| Overwrites.StaysIff | internal/tx/coordinator.go:93-166 | a stored record stays as it is, and its transaction is not executed again, in every continuation whose calls have no business with it, if and only if no goroutine has an older save of it, an execution of it, or a copy without it that will be installed |
| Overwrites.Overwritten | internal/storage/storage.go:434-443 | each such kind of outstanding work has a continuation, without any new call, that overwrites the record or executes its transaction |
| Overwrites.SavedRecordStays | internal/storage/storage.go:328-333 | a record saved while no goroutine works on a copy and none has other work on it outstanding is not lost in any continuation |
| Overwrites.OpenSaveReopens | internal/tx/coordinator.go:96-154 | while a goroutine has yet to save an open record, even a committed transaction can be executed again |
| Overwrites.LockComesFree | internal/lock/serial.go:9-15 | the holder of the lock, left alone, releases it, and nobody else is disturbed |
| Survival.SafeStays | internal/tx/coordinator.go:137-142 | a record that no outstanding work touches stays in every continuation whose calls have no business with it; for a committed one only the deletion of its userspace has, so that it is final and never executed again |
| Survival.AlwaysKeyed | internal/storage/storage.go:328-333 | in every interleaving records are filed under their own identifiers, in the store and in every copy |
| CommitOnce.CommitsAtMostOnce | internal/tx/coordinator.go:132-154 | in every interleaving in which calls on one transaction take turns and its userspace is kept, it commits at most once, whatever sweeps, imports and other executions come between |
| CommitOnce.CommittedIffOnce | internal/tx/coordinator.go:132-190 | when overdue sweeps take turns too, it committed exactly once if its stored record says committed, and not at all otherwise |
| Races.SaveCanBeLost | internal/storage/storage.go:440 | a run in which a transaction created successfully is gone although nothing was deleted: saved between the copy and the installation of an import into any userspace |
| Races.FragmentCanBeLost | internal/tx/coordinator.go:97-129 | a run in which two fragments of one transaction are both accepted and the first is missing from the record |
| Races.OverlappingCommitsBothRun | internal/tx/coordinator.go:133-152 | a run in which two commits of one transaction, both loaded before either executes, are both executed and the counter rises twice |
| Races.SweepOverwritesCommit | internal/tx/coordinator.go:326-333 | a run in which a transaction commits, its values are stored, and a sweep that had listed it before records it as expired |
| Reachable.ReachableInv | internal/storage/storage.go:71-96 | every content that whole calls reach from a first start satisfies the record invariant |
| Reachable.InterleavingKeepsInv | internal/tx/coordinator.go:60-190 | in every interleaving the stored content, and whatever a goroutine is about to save, execute or install, satisfies the record invariant |
| Reachable.ReachableServerInv | internal/storage/storage.go:71-96 | the same holds in every interleaving from a first start |
| Interference.InstallRestoresRecords | internal/storage/storage.go:434-443 | an installation puts back the transaction records of the moment of copying, but for the one executed |
| Lifecycle.CountMeansComplete | internal/tx/coordinator.go:119-152 | when fragment numbers lie in 1..n, having n fragments is having every number: the pigeonhole step behind the test by cardinality, both directions |
| Lifecycle.ReportDivides | internal/tx/coordinator.go:335-346 | a progress report lists, in order and without overlap, exactly the numbers 1..n whose fragments are there and exactly the others |
| Lifecycle.NothingMissingIffComplete | internal/tx/coordinator.go:335-346 | on a stored record nothing is reported missing if and only if the count of fragments says complete |
| Lifecycle.StepKeepsInv | internal/tx/coordinator.go:60-190 | every call keeps the record invariant: fragments filed under their own number within 1..n, ready and committing never stored, waiting means commit received and a fragment missing, committed means a full result numbered 1..n |
| Lifecycle.RunKeepsInv | internal/tx/coordinator.go:60-190 | every content reached by a run from one that satisfies the invariant satisfies it |
| Lifecycle.BootstrapKeepsInv | internal/storage/storage.go:71-96 | starting the server on any content keeps the invariant and every stored value, and leaves the first userspace existing |
| Lifecycle.DecisionsOk | internal/tx/coordinator.go:96-176 | a record is executed only when it is open, has its commit and has all its fragments; no call saves a record as committed, changes its owner or touches a committed one |
| ExactlyOnce.CommitConditions | internal/tx/coordinator.go:119-152 | a transaction commits only by its owner's fragment or commit, the latter announcing no size or the record's, from a pending or waiting record, not after its deadline, with every fragment there, no digest or the right one and no operation failing, and the content becomes exactly what the operations leave, the counter rising by the number of PUTs and DELETEs |
| ExactlyOnce.ExactlyOnceUntilDeleted | internal/tx/coordinator.go:132-154 | over every run that keeps its userspace a transaction commits at most once, and has committed exactly when its record says so |
| ExactlyOnce.CommitsBalance | internal/tx/coordinator.go:132-154 | over every run whatever, commits of an identifier and removals of its committed record alternate |
| ExactlyOnce.CommittedForGood | internal/tx/coordinator.go:137-139 | a committed record, result included, is the same at the end of every run that keeps its userspace |
| ExactlyOnce.ClosedForGood | internal/tx/coordinator.go:311-324 | an aborted or expired transaction never commits in any continuation, keeps its fragments and result, and changes at most from expired to aborted |
| ExactlyOnce.RecordsGoWithTheirSpace | internal/storage/storage.go:176-180 | a transaction record disappears only by the deletion of its own userspace |
| ExactlyOnce.TxCallFrame | internal/tx/coordinator.go:96-176 | a transaction call changes no other record, and no value, counter or key table unless it commits |
| ExactlyOnce.VersionStep | internal/storage/storage.go:263-272 | each call raises the counter by exactly the records it writes or deletes |
| ExactlyOnce.VersionNeverDecreases | internal/storage/storage.go:567-591 | over every run the counter never decreases |
| ExactlyOnce.SweepIsComplete | internal/tx/coordinator.go:178-190 | after a sweep no open record found past its deadline is open, the count is that of the records changed, nothing else is touched, and the same sweep again finds nothing |
| TxCalls.StrangersRefused | internal/tx/coordinator.go:300-309 | a call on an unknown identifier is not found, one on a record of another user or userspace forbidden; neither changes anything |
| TxCalls.LateExpires | internal/tx/coordinator.go:311-333 | a fragment or commit on an open record past its deadline stores it as expired, changes nothing else, and is refused as expired |
| TxCalls.ClosedRefuses | internal/tx/coordinator.go:311-324 | on an aborted or expired record a fragment or commit is refused as such, on a committed one a fragment is, and a commit answers the stored result; nothing changes |
| TxCalls.FragmentRefused | internal/tx/coordinator.go:104-109 | a fragment with a number outside 1..n or without operation id is refused and changes nothing |
| TxCalls.FragmentOnUsedNumber | internal/tx/coordinator.go:110-118 | for a used number the fragment is accepted in silence exactly when operation id, type, key, content type and body checksum are those filed; otherwise the record is stored as aborted for the conflict, nothing else changed |
| TxCalls.FragmentFiled | internal/tx/coordinator.go:119-130 | a new fragment is filed as sent, with identifier, time and checksum; the last one after the commit executes the record, any other stores it, waiting exactly when the commit was received, and answers its report |
| TxCalls.RefusedIffWrongSize | internal/tx/coordinator.go:143-145 | a timely commit of the owner is refused without an execution, and changes nothing, exactly when it announces a size that is neither 0 nor the record's |
| TxCalls.CommitNoted | internal/tx/coordinator.go:146-154 | any other timely commit is noted with its digest: with fragments missing the record is stored as waiting and reported, otherwise it is executed |
| TxCalls.AbortCloses | internal/tx/coordinator.go:156-167 | the owner's abort is refused as already committed exactly for a committed record, then changing nothing; any other record is stored as aborted by the client, nothing else changed, reported so, and commits in no continuation that keeps its userspace |
| TxCalls.QueryAnswers | internal/tx/coordinator.go:169-176 | the owner's query answers the record's report and stored result, an overdue record being stored as expired first |
| TxCalls.CreationMakes | internal/tx/coordinator.go:60-94 | a creation is refused exactly for a size or lifetime over the limits, a malformed identifier, or one taken by another owner or size; it answers its own existing record; otherwise it stores a pending one with the deadline that the requested or default lifetime gives |
| TxCalls.SweepExpires | internal/tx/coordinator.go:178-190 | a sweep stores as expired exactly the open records found past their deadline, answers their number, and changes nothing else |
| Retransmission.FragmentTwice | internal/tx/coordinator.go:110-118 | a fragment sent again, whatever became of the first, changes nothing unless it finds the transaction overdue |
| Retransmission.CommitTwice | internal/tx/coordinator.go:132-154 | a commit sent again with its digest changes nothing unless it finds the transaction overdue |
| Retransmission.WaitingCommitIffSameDigest | internal/tx/coordinator.go:146-151 | a repeated commit leaves a waiting record as it is if and only if it repeats the digest |
| Retransmission.CommitAfterCommit | internal/tx/coordinator.go:137-139 | committing a committed transaction answers the stored result and changes nothing |
| Retransmission.CreateTwice | internal/tx/coordinator.go:76-81 | a creation repeated under its identifier answers the record as it now is and changes nothing |
| Retransmission.AbortTwice | internal/tx/coordinator.go:156-167 | an abort sent twice is an abort sent once |
| Retransmission.ConflictIsFatal | internal/tx/coordinator.go:110-118 | a timely fragment for a used number is accepted in silence exactly when operation id, type, key, content type and checksum of the body are those filed; otherwise the transaction is aborted for the conflict and commits in no continuation |
| Confluence.RecordFollowsPlan | internal/tx/coordinator.go:96-154 | among any other traffic, a record built from a plan's messages is in the state of a two-state reference machine |
| Confluence.CompletingCall | internal/tx/coordinator.go:119-154 | on any content, the call that completes a plan ends, and leaves values and versions, as running the plan on that content does |
| Confluence.AnyOrderAmongOthers | internal/tx/coordinator.go:96-154 | two runs with any other traffic that complete a plan on the same values, in any orders, have the same values, versions, status, reason and result right after |
| Confluence.AnyOrder | internal/tx/coordinator.go:96-154 | two runs of a plan's messages alone, in any orders, with repetitions, the commit anywhere, at any times before the deadline, both complete, and end with the same status, reason, result, values and versions |
| Confluence.CreationStartsPlan | internal/tx/coordinator.go:82-93 | a successful creation puts the record in the reference machine's first state |
| OutcomeLaws.OutcomeAlike | internal/tx/coordinator.go:192-288 | the outcome of an execution and the values it leaves do not depend on arrival times, clock readings, timestamps or other records |
| ExecutionLaws.AllOrNothing | internal/tx/coordinator.go:192-288 | an execution commits exactly when the digest agrees and no operation fails; then the whole effect is installed with one answer an operation, otherwise values, counter and key tables are as before |
| AnswerLaws.CommittedAnswers | internal/tx/coordinator.go:205-280 | a committed execution carries one item an operation: GET and HEAD 200 with type, version and (GET only) value of the record that the operations before leave; EXISTS 200 exactly when the key is there, else 404; PUT 200 with the version now stored, which is the counter; DELETE 204 with the counter |
| AnswerLaws.ReadsSeeLastWrite | internal/tx/coordinator.go:205-280 | told from the operations alone: a committed GET answers the body of the last PUT of its key before it, or the stored value if nothing wrote it; EXISTS answers 200 exactly when the last write was a PUT, or the key was stored |
| AnswerLaws.RightAnswers | internal/tx/coordinator.go:205-280 | of the operations that pass, each is one of the five and has the right item, also when a later one fails |
| AnswerLaws.StoredByExecution | internal/storage/storage.go:567-591 | after operations that pass, a key holds the record of the last PUT of it, field by field and with the creation time kept, nothing after a DELETE, and else what it held |
| AnswerLaws.FailsExactly | internal/tx/coordinator.go:223-280 | the next operation fails exactly when it is none of the five, or reads or deletes a key that the operations before it do not leave there |
| AnswerLaws.EndsExactly | internal/tx/coordinator.go:192-288 | an execution aborts without report for a wrong digest; commits with an item an operation if none fails; aborts with the report up to a missing key; aborts without report at an unknown operation; status, reason, error and result of each |
| AnswerLaws.FailureReport | internal/tx/coordinator.go:225-237 | the report of the right items before the failing operation and of that one as not found is stored and answered exactly when the digest agrees and the first operation to fail is one of the five |
| AnswerLaws.RecordAtEnd | internal/tx/coordinator.go:281-288 | the record stored at the end is the transaction with status, reason and result of the outcome; everything else in it, and every other record, is kept |
| ExecutionLaws.AnswersInTurn | internal/tx/coordinator.go:205-280 | answer i is read off the content that operations 1..i-1 leave |
| ExecutionLaws.LastWriterWins | internal/tx/coordinator.go:205-280 | a read sees the body of the last PUT of its key before it, nothing after a DELETE, and the stored value if neither occurred |
| ExecutionLaws.PassedIsFirstFailure | internal/tx/coordinator.go:206-280 | the loop stops exactly at the first operation that fails on the content it meets |
| ExecutionLaws.ExecutionIsLocal | internal/storage/storage.go:567-591 | an execution changes one userspace and raises the counter once a write |
| TxDigest.PreimageInjective | internal/tx/coordinator.go:353-365 | for fragments whose fields cannot be confused with the separators, the hashed text is equal if and only if numbers, operation ids, types, keys and body hashes are |
| TxDigest.ComputeDigest | internal/tx/coordinator.go:353-365 | the digest depends only on the fragment table, not on the order in which the map is iterated |
| Layout.LineFields | internal/tx/coordinator.go:353-365 | a line of the hashed text holds number in decimals, operation id, type, key and body hash, in this order, each recovered by cutting at the separators |
| Layout.LeastFirst | internal/tx/coordinator.go:353-365 | the hashed text is the lines in increasing order of the numbers |
| Isolation.TwoRunIsolation | internal/storage/storage.go:555-591 | two runs with the same calls in one userspace and any calls elsewhere, identifiers and key hashes not being shared, end with the same values, keys, subjects and transactions for it and gave it the same answers all along, version numbers aside |
| Isolation.PurgeInvisible | internal/storage/storage.go:379-428 | leaving out the calls made in other userspaces changes no answer and no value of this one |
| Isolation.OwnCallSame | internal/tx/coordinator.go:300-309 | on two contents that a userspace cannot tell apart, each of its calls answers alike and leaves contents it cannot tell apart |
| Isolation.CallElsewhere | internal/storage/storage.go:158-206 | a call made in another userspace changes nothing this one can see |
| Isolation.SharedIdsInterfere | internal/tx/coordinator.go:76-81 | transaction identifiers must not be shared: a creation that succeeds fails once another userspace has created a transaction under its identifier |
| StoreCalls.PutStores | internal/storage/storage.go:567-591 | a PUT stores value, type and checksum under the next version, which it answers, keeping the creation time of what it overwrites; every other key, userspace and table is kept |
| StoreCalls.GetAnswers | internal/storage/storage.go:555-565 | a GET answers the record under the key exactly when there is one and changes nothing |
| StoreCalls.DeleteRemoves | internal/storage/storage.go:263-272 | a DELETE removes a key that is there under the next version and refuses one that is not, keeping all else |
| StoreCalls.ExportAnswers | internal/storage/storage.go:281-290 | an export answers exactly the records of the userspace |
| StoreCalls.CreationLeaves | internal/storage/storage.go:106-125 | a creation is refused exactly for a malformed or used name; otherwise it leaves an empty userspace and an active key of the user, by default named like it, and keeps all else |
| StoreCalls.DeletionLeaves | internal/storage/storage.go:158-182 | a deletion is refused exactly for a name that nothing mentions; otherwise values, keys, subjects and transactions left are those of the other userspaces, unchanged |
| StoreCalls.RotationLeaves | internal/storage/storage.go:184-206 | a rotation leaves, of the keys of the userspace, the new one alone, and keeps all else |
| StoreCalls.StartLeaves | internal/storage/storage.go:71-96 | a start adds an empty userspace, an administrator's key and an administrator's subject where they are missing, and replaces nothing |
| StoreCalls.UserspaceNames | internal/storage/validate.go:18-32 | exactly the names of 1 to 128 letters, digits, dots, underscores and hyphens that begin with a letter or digit are accepted |
| StoreCalls.TransactionNames | internal/tx/coordinator.go:371-375 | exactly the identifiers of 1 to 128 letters, digits, underscores, dots, colons and hyphens are accepted |
| Ordering.StrLessExact | internal/storage/storage.go:288 | the order of listings and exports is that of the first octet that differs, a proper beginning coming first |
| StoreLaws.SetRecordKeepsInv | internal/storage/storage.go:567-591 | storing a record under the next version keeps versions distinct across all userspaces and within 1..counter, and every record filed under its own name with its own checksum |
| StoreLaws.ImportMeetsSpec | internal/storage/storage.go:393-428 | for each mode and key what an import leaves, repeated keys included (last wins, or for skip the stored record, else the first), with imported + skipped = read, version rise = imported, growth = imported - replaced |
| StoreLaws.DeletedSpaceIsGone | internal/storage/storage.go:158-182 | after a deletion nothing mentions the userspace and it does not exist; all others keep everything |
| StoreLaws.RotationLeavesOneKey | internal/storage/storage.go:184-206 | after a rotation exactly the new hash belongs to the userspace and resolves to it; another userspace is unchanged if and only if it did not own that hash |
| StoreLaws.ListingIsComplete | internal/storage/storage.go:127-156 | the counts of a listing sum to all records and all active keys |
| Storage.Store.Bootstrap | internal/storage/storage.go:71-96 | creates what is missing and keeps what is there |
| Storage.Store.UserspaceExistsLocked | internal/storage/storage.go:225-240 | true exactly when values, a key or a subject mention the userspace |
| Storage.Store.CreateUserspace | internal/storage/storage.go:106-125 | refuses a malformed or existing name; otherwise adds an empty userspace and its key |
| Storage.Store.DeleteUserspace | internal/storage/storage.go:158-182 | the sweeps over keys, subjects and transactions leave exactly those of the other userspaces |
| Storage.Store.ReplaceUserspaceAPIKeyHash | internal/storage/storage.go:184-206 | replaces all keys of the userspace by one, owned by an owner read off the old ones |
| Storage.Store.ListUserspaces | internal/storage/storage.go:127-156 | lists every userspace with values or an active key once, in order, with its number of values and of active keys, and as owner that of one of its active keys, or its own name when it has none |
| Storage.Store.ListUserspaceKeys | internal/storage/storage.go:208-223 | lists every record once in key order without its value, or fails exactly when the userspace does not exist |
| Storage.Store.ExportUserspace | internal/storage/storage.go:281-290 | lists every record of the userspace once, in key order |
| Storage.Store.ImportUserspace | internal/storage/storage.go:292-302 | is the import of all records, installed as a whole |
| Storage.Store.Put | internal/storage/storage.go:256-261 | stores the value under the next version, which it returns, keeping the creation time |
| Storage.Store.Delete | internal/storage/storage.go:263-272 | removes a present key under the next version, and changes nothing for an absent one |
| Storage.AtomicTx.ImportUserspace | internal/storage/storage.go:393-428 | the loop over the records computes the fold that ImportMeetsSpec is about |
| Storage.AtomicTx.Commit | internal/storage/storage.go:434-443 | installs the whole copy once; a closed transaction changes nothing |
| Coordinator.Coordinator.CreateTx | internal/tx/coordinator.go:60-94 | answers and stores what the specification of creation says |
| Coordinator.Coordinator.AddOp | internal/tx/coordinator.go:96-130 | answers and stores what the decision on a fragment says, and gives the lock back on every path |
| Coordinator.Coordinator.Commit | internal/tx/coordinator.go:132-154 | answers and stores what the decision on a commit says, and gives the lock back on every path |
| Coordinator.Coordinator.Report | internal/tx/coordinator.go:335-346 | the loop over 1..n computes the report that ReportDivides is about |
| Coordinator.Coordinator.Abort | internal/tx/coordinator.go:156-167 | answers and stores what the decision on an abort says |
| Coordinator.Coordinator.GetResult | internal/tx/coordinator.go:169-176 | answers the record, expiring it first when overdue |
| Coordinator.Coordinator.ExpireDue | internal/tx/coordinator.go:178-190 | expires exactly the overdue records and counts them, in whatever order they are listed |
| Coordinator.Coordinator.ExecuteTx | internal/tx/coordinator.go:192-288 | the loop over the copy, its early exits and its installation amount to the outcome and effect of the recursive specification |
| RoundTrip.RoundTripExact | internal/importexport/encode.go:13-38 | decoding the encoding of any list of records gives the same keys, values, types, versions and millisecond times in order if and only if every record is admissible (key, content type of at most 255 octets, value, JSON, 64-bit ranges) |
| RoundTrip.LongContentTypeRefused | internal/importexport/decode.go:55-62 | every record with a content type of 256 to 65535 octets is written to a file that is refused |
| RoundTrip.CanonicalExact | internal/importexport/decode.go:15-106 | an accepted file is the encoding of what it decodes to if and only if its type octets are 1, 2 or 3 |
| RoundTrip.SameRecordsSameFile | internal/importexport/decode.go:15-106 | two accepted canonical files with the same header time and the same decoded records are the same file |
| RoundTrip.DecodedIsStable | internal/importexport/decode.go:15-106 | whatever is accepted is admissible again and survives a second trip unchanged |
| CodecLaws.FileExact | internal/importexport/decode.go:15-106 | a file is accepted with given contents if and only if it is the sealed layout of admissible contents: no leftover octets, no second reading |
| CodecLaws.GuardAdmitsEncodings | internal/importexport/decode.go:108-118 | the bound on the record count never refuses a genuine encoding |
| CodecLaws.RecordConsumes | internal/importexport/decode.go:45-101 | each accepted record consumes at least 72 octets, so the loop ends |
| Layout.FileLayout | internal/importexport/encode.go:13-38 | the octets of an export by offset: magic, format version, export time in milliseconds, number of records, the records in order, and the sum of all that precedes |
| Layout.RecordLayout | internal/importexport/encode.go:19-37 | the octets of a record by offset: key with 4 octets of length, content type with 2, value type 1, 2 or 3, value with 8, version, both times in milliseconds, and the sum of the value |
| Layout.HighFirst | internal/importexport/encode.go:16-18 | numbers are read with the high-order octet first |
| DecodeErrors.DecodesOrRefuses | internal/importexport/decode.go:44-106 | a sealed file of records of any content decodes to them, or is refused with the first defect of the first record that has one (length, key, checksum, JSON), or else for octets left over |
| DecodeErrors.HeaderRefused | internal/importexport/decode.go:24-43 | another magic or format version, or more records announced than 72 octets each leave room for, is refused as a wrong format before any record is read |
| DecodeErrors.BrokenSealRefused | internal/importexport/decode.go:16-23 | a file that is too short is refused as a wrong format, and any other whose sum does not agree as a wrong checksum, whatever it holds |
| Codec.Encode | internal/importexport/encode.go:13-38 | the loop that appends field after field writes the layout of the records |
| Codec.Decode | internal/importexport/decode.go:15-106 | the reader that advances field by field returns what the grammar of the format says, error by error in the order of the checks |
| BigEndian.GetPut | internal/importexport/encode.go:16-18 | a number written in n octets is read back exactly when it fits in n octets |
| BigEndian.PutGet | internal/importexport/decode.go:36-38 | octets read as a number are written back as they were |
| BigEndian.SignedRoundTrip | internal/importexport/decode.go:79-82 | a signed 64-bit number survives the unsigned field |
| Backup.BackupExact | internal/httpapi/import_export_handlers.go:15-70 | an export followed by an import request with replacement, into any userspace of any store, is accepted and restores the userspace key for key if and only if every record is admissible and the whole file keeps the limit on one value, its length given by the records |
| Backup.BackupRestores | internal/httpapi/import_export_handlers.go:36-70 | then every record is imported, none replaced or skipped, and no other userspace changes |
| Backup.BackupOfAdmitted | internal/httpapi/import_export_handlers.go:15-70 | for whatever a run of admitted calls stored, the condition is content types of at most 255 octets and the length of the file |
| Backup.LargestValueRefused | internal/httpapi/import_export_handlers.go:45-49 | the export of one value of the greatest admitted size is refused with status 413 |
| Requests.PutAdmittedExactly | internal/httpapi/kv_handlers.go:35-67 | a PUT is admitted exactly when its key is 1 to max octets of valid UTF-8, its body keeps the limit, and is valid JSON if its content type, octets by default, says so |
| Requests.FragmentCodes | internal/httpapi/tx_handlers.go:68-108 | each refusal code of a fragment request, 400, 413 or 422, is given exactly under its condition on key, name, operation, length and body |
| Requests.ImportCodes | internal/httpapi/import_export_handlers.go:36-70 | each code of an import request, 400, 413, 422 or 200, is given exactly under its condition on mode, length and decoding, and only 200 changes anything |
| Requests.JsonRefusedExactly | internal/httpapi/import_export_handlers.go:50-57 | a sealed file is answered with 422 exactly when the first defect of its first defective record is its JSON |
| Admission.RunKeepsAdmitted | internal/httpapi/kv_handlers.go:35-67 | every value that a run of admitted calls stores, or holds in a fragment, has a valid key, keeps the limit and is valid JSON where typed so |
| Admission.AdmittedImportable | internal/storage/validate.go:20-53 | of the records that admitted calls store, an export can carry exactly those with a content type of at most 255 octets |
| Admission.DecodedIsAdmitted | internal/importexport/decode.go:44-96 | an import file that decodes and keeps the limit holds only admitted records |
| AuthSteps.PromptFillsAgree | internal/auth/auth.go:134-148 | with lookup, resolution, filling, table change and emptying as separate steps in any order, every cached entry is what the tables say whenever no change is under way, unless a fill was resolved before an administrative change that had emptied the cache |
| AuthSteps.FillAgreesIff | internal/auth/auth.go:142-146 | from a cache that agrees, a fill leaves one that agrees if and only if its resolution is what the tables still say |
| AuthSteps.CachedAnswersAreRecent | internal/auth/auth.go:150-171 | in every interleaving a cached answer was resolved from the tables at an earlier step, filled in at most one lifetime ago and since the cache was last emptied, and is current unless an administrative change came after that step |
| AuthSteps.RevokedKeyStillAnswers | internal/auth/auth.go:134-148 | a run in which a key rotated between resolution and filling authenticates for a whole lifetime of the entry |
| AuthSteps.StepsCompose | internal/auth/auth.go:134-148 | taken without interruption the three steps are one authentication |
| AuthSteps.StepsStayBounded | internal/auth/auth.go:161-171 | with a positive maximum the cache never exceeds it, in every interleaving |
| AuthCache.CacheIsInvisible | internal/auth/auth.go:120-148 | after any run of calls and uninterrupted authentications, an uninterrupted authentication answers what the key tables say at that moment |
| AuthLaws.AnswersRecorded | internal/auth/auth.go:120-148 | after any run from an empty cache, an uninterrupted authentication answers a principal exactly when the table holds an active record for the hash or subject, with the user, userspace and roles recorded and the method of that credential |
| AuthLaws.StartAuthenticates | internal/storage/storage.go:71-96 | after a start on tables that know neither, the administrator is authenticated by subject, and by key if its hash is not empty, as itself in the userspace given |
| AuthLaws.LivesForTtl | internal/auth/auth.go:142-171 | a fresh answer is given again until the lifetime of its entry is over, to the instant, whatever the tables say meanwhile, and then the tables decide anew |
| AuthLaws.OtherEntriesKept | internal/auth/auth.go:161-171 | authenticating changes no other entry but the one given up when the cache is full, and nothing is cached for a refused credential |
| AuthCache.RunKeepsAgreement | internal/auth/auth.go:150-171 | along every run of calls and uninterrupted authentications each cached entry equals what the store resolves now |
| AuthCache.KeyTablesChangeOnlyByAdmin | internal/httpapi/admin_handlers.go:67-75 | only administrative calls that succeed, which empty the cache, change the key tables |
| AuthCache.CacheStaysBounded | internal/auth/auth.go:161-171 | the same bound along every run of uninterrupted authentications |
| AuthCache.CacheKeyInjective | internal/auth/auth.go:120-139 | a key hash and a token subject never share a cache entry |
| AuthCache.Authenticator.AuthenticateAPIKey | internal/auth/auth.go:134-148 | is one authentication of the specification, evicting an entry that is there; an empty key is refused untouched |
| AuthCache.Authenticator.AuthenticateSubject | internal/auth/auth.go:120-130 | is one authentication of the specification for a verified subject |
| AuthCache.Authenticator.SetCache | internal/auth/auth.go:161-171 | evicts one present entry when full, then files the new one |
| Handlers.Server.HandleKV | internal/httpapi/kv_handlers.go:35-54 | an invalid key is refused untouched; a PUT is stored exactly when the value is admitted; the rest is one locked read or deletion |
| Handlers.Server.HandlePut | internal/httpapi/kv_handlers.go:56-79 | refuses a body over the limit with 413 and invalid JSON with 422, untouched; otherwise is one locked put |
| Handlers.Server.HandleAddOp | internal/httpapi/tx_handlers.go:68-108 | 400 exactly for an invalid key, an empty operation id, an unknown operation or a body declared where there is none, 413 exactly for a PUT past that with no body or one over the limit, 422 exactly for one past that with invalid JSON, each untouched; every other request reaches the coordinator with an admitted fragment |
| Handlers.Server.HandleGet | internal/httpapi/kv_handlers.go:81-102 | answers the stored record, 404 exactly when there is none |
| Handlers.Server.HandleDelete | internal/httpapi/kv_handlers.go:104-118 | afterwards the key is absent; 404 exactly when it was absent before, and then nothing changed |
| Handlers.Server.HandleExport | internal/httpapi/import_export_handlers.go:15-34 | the file holds every record of the userspace once, in key order, and is determined by them and the time |
| Handlers.Server.HandleImport | internal/httpapi/import_export_handlers.go:36-70 | a file over the limit on values, or one that does not decode, changes nothing; otherwise is one locked import of admitted records |
| Handlers.Server.HandleCreateUserspace | internal/httpapi/admin_handlers.go:46-77 | is one locked creation; the cache is emptied exactly when it succeeds |
| Handlers.Server.HandleDeleteUserspace | internal/httpapi/admin_handlers.go:111-124 | is one locked deletion; the cache is emptied exactly when it succeeds |
| Handlers.Server.HandleRotateUserspaceAPIKey | internal/httpapi/admin_handlers.go:126-146 | is one locked rotation; the cache is emptied exactly when it succeeds |

## Left out

- 64-bit wrap-around of the version counter: `version` is an unbounded natural number; the difference shows after 2^64 writes. The export format does treat versions as 64-bit.
- Persistence: files, atomic rename, the JSON form of the content and the mirror of values as files. Writing always succeeds and a clone is an equal copy here. The clone of the code goes through JSON, which rewrites octets of a content type or an identifier that are not valid UTF-8; the equal copy does not. And a time outside the years 0 to 9999 has no JSON form: an import record whose millisecond creation time lies beyond year 9999 is installed and then makes `persistLocked`, and every later `cloneSnapshot`, fail with status 500 (`internal/storage/storage.go` lines 434-443, 475-480, 593-597).
- Backup.BackupExact: counts a record with a creation time beyond year 9999 as restored with status 200, as persistence does not fail here; RoundTrip.RoundTripExact, which is about the file alone, holds for it as it stands.
- Aliasing: a content is a value here, so that maps shared between the store and an atomic transaction after its commit are not represented; the code does not use the transaction again.
- SHA-256, HMAC, JSON validity, UTF-8 validity and the classification of content types are arbitrary functions; nothing is assumed of them, no freedom from collisions. Base64 in results is left as the octets it encodes.
- JWT parsing and claim checks: only the verified subject reaches the cache.
- AuthCache.RunKeepsAgreement: takes an authentication as one step; module AuthSteps takes it apart.
- AuthSteps.PromptFillsAgree: has no converse over whole runs, as a change for one userspace leaves the entries of others current; FillAgreesIff is exact for each fill.
- CommitOnce.CommitsAtMostOnce: has no converse over whole runs, as calls that overlap without acting on the same record do no harm; StaysIff is exact at each state, and OpenSaveReopens and the runs in Races show the harm.
- Isolation.TwoRunIsolation: does not cover the number that a sweep reports, which counts the overdue records of all userspaces and is shown to no client.
- Storage.Store.ListUserspaces: does not say which of several differing owners is shown, as that depends on the iteration order of a map.
- Storage.Serializable: a caller that finds the lock held is excluded by a precondition; waiting is modelled in module Threads.
- The error branch of a PUT inside an execution (`internal/tx/coordinator.go` lines 212-219) and the status 500 in `fail`: no operation of the store can fail in that way.
- Random identifiers and generated keys are arguments of the calls, and so are clock readings.
- Routing, request parsing, CORS, error bodies, request ids, metrics, configuration, the background ticker and the web console.
- `UpsertAPIKeyHash` and `UpsertJWTSubject`, which only tests call; the read-only listings of the administration handlers beyond the store methods behind them.
- Result retention and the removal of fragment bodies, which are configured but not implemented.
