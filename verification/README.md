# Gline: a verified model of the log pipeline

Gline is a log pipeline. An Agent tails files, collects records into batches and writes each batch,
together with the file offset it ends at, to a write-ahead log (WAL). A dispatcher sends the batches
over an unreliable network until the Server acknowledges them. The Server commits every batch at most
once, counts it in usage buckets, and serves the stored entries back page by page.

This project models that behaviour in Dafny 4.11 and proves what the design promises of it. Run
`dafny verify dfyconfig.toml` to check everything.

## How the model is laid out

| part | files |
|---|---|
| Bytes of the WAL: frames, CRC-32, scanning, torn tails, damage | `Crc32.dfy`, `Framing.dfy` |
| Records, index, replay, compaction, crash points of the file swap | `Spool.dfy`, `Compaction.dfy`, `Wal.dfy`, `SwapFiles.dfy` |
| The WAL object, updated in place over its file | `WalFile.dfy` |
| Tailing: lines, checkpoints, restarts, rotation; the source and pipeline objects | `Tailing.dfy` |
| Choice of the next batch, back-off, reaction to replies | `Dispatcher.dfy`, `Transport.dfy` |
| Server transaction, tables, usage, admission | `Tables.dfy`, `Ingest.dfy`, `Admission.dfy` |
| The whole protocol, with lost messages, crashes and unseen commits | `Delivery.dfy` |
| The tailed file, the spool and the server as one system | `EndToEnd.dfy` |
| Canonical payload: decimal numbers, JSON values, requests | `Decimal.dfy`, `CanonicalNumber.dfy`, `CanonicalJson.dfy`, `CanonicalPayload.dfy`, `JsonText.dfy` |
| Queries: LIKE, statement, paging, cursors, concurrency limit | `Like.dfy`, `Paging.dfy`, `Search.dfy`, `Semaphore.dfy` |
| Shared: sequences, totals, text order, products of reals | `Prelude.dfy`, `Text.dfy`, `Reals.dfy` |

Code that changes things step by step is a class or a method with loops (`WAL`, `DurableFileSource`,
`Pipeline`, `Dispatcher`, `Limiter`, `Reservation`, `Database`, `Service`, `Buffer`,
`ProjectLimiter`). Each such method is proved equal to a function on values, and the theorems are
about those functions and about the transition systems built from them.

## Hypotheses

- JSON bodies of WAL records are an abstract codec (`Spool.Codec`); `Spool.Faithful` says that
  decoding undoes encoding up to the compaction of the embedded payload, which is what marshalling a
  raw message does, that an acknowledgement or a checkpoint is not longer than the commit it
  belongs to, and that a quarantine record or a checkpoint is not shorter than its error code or
  source key, which it contains.
- A failed append leaves the file as it was (internal/agent/spool/wal.go:530), and a crash during an
  append leaves a strict prefix of the new frame. Renames are atomic and ordered.
- Quarantine and checkpoint records fit the record limit. The code checks this for commits only, and
  the model proves that the log stays readable exactly when it is so (`Wal.QuarantineKeeps`,
  `Wal.TransitionKeeps`).
- A body that the Agent spools says the same to the server as its compacted form
  (`Delivery.BodyFaithful`), which holds of what json.Marshal makes, since that is compact already.
  Nothing is assumed of other bodies.
- Transactions are atomic. A commit may take effect and still be reported as an error.
- Batch ids are fresh and in lower case, as internal/agent/reliable/batch.go makes them. Only the
  server produces positive acknowledgements; any other reply may be anything else.
- The limiter's clock does not run backwards at its lock. Token counts are real numbers.
- A recreated file has an identity that was not used before, and files are not truncated in place. A
  path may be renamed back to an earlier file when that file is the one being tailed or nothing of it
  is committed; `Tailing.RestoreExact` shows that this is exactly when its records survive.
- Base64, HMAC, SHA-256, RFC 3339 times and case mapping are functions with the properties stated by
  `Search.Sound` and `CanonicalPayload.Faithful`. No hash is assumed to be free of collisions;
  `EndToEnd.StoredSaysWhatWasMade` says where one would show.

## What was found

- `Quarantine` and `Transition` write records that recovery may refuse: above the record limit the
  whole log becomes unreadable (`Wal.OversizeBreaks`). From every state with a pending batch, an error
  code longer than the limit makes `Quarantine` succeed and the log impossible to open
  (`Wal.QuarantineCanBreak`), and from every state a new source key longer than the limit does the
  same through `Transition` (`Wal.TransitionCanBreak`). The default limit of 8 MiB is far above the
  64 KiB of a reply that the Agent reads, so the first takes a much smaller configured limit.
- The exponent bound of `canonicalNumber` is on the text, not the value: ten times 10^100000 is
  accepted and its canonical text is refused (`CanonicalNumber.AcceptanceDependsOnSpelling`;
  `CanonicalNumber.CanonicalAgain` gives the exact condition).
- A batch whose id has a capital letter is accepted once, and its retry is answered as invalid instead
  of as a duplicate, because the id column lowers the text that `VerifyRetry` compares
  (`Ingest.RetryVerdict`, `Ingest.CapitalIdIsNotRecognized`).
- A Retry-After header is read as written exactly up to 9,223,372,036 seconds. Beyond it the product
  wraps to a negative wait or to one that is positive and too short (`Transport.HeaderReadExactly`,
  `Transport.RetryAfterWraps`).
- A live rotation loses what is written to the old file after its end was last seen, exactly when that
  contains a newline (`Tailing.RotationExact`); for any such bytes there is a run that rotates
  past them (`Tailing.RotationCanLose`).
- A path that is renamed back to an earlier file of which something was committed is read again from
  its beginning (`Tailing.RestoreExact`). Such states are reached (`Tailing.ReplacedAfterCommit`), and
  from every one of them all lines committed before can be committed a second time
  (`Tailing.RestoredTwice`).

## Model

| member | source | states |
|---|---|---|
| Crc32.CrcDetectsByte | internal/agent/spool/wal.go:760-765 | two inputs that differ in one byte have different checksums: each CRC-32 step is injective in state and in input |
| Crc32.CheckValue | internal/agent/spool/wal.go:760-765 | the checksum of the nine ASCII digits is the published check value of CRC-32 |
| Framing.FrameLayout | internal/agent/spool/wal.go:733-758 | where magic, version, kind, length and checksum stand in the sixteen bytes before the body |
| Framing.ParseFrameHeader | internal/agent/spool/wal.go:733-758 | the header of every frame parses back to its kind, length and checksum |
| Framing.ReadEncoded | internal/agent/spool/wal.go:398-427 | a frame followed by any bytes is read as exactly that frame |
| Framing.ScanWritten | internal/agent/spool/wal.go:390-430 | scanning concatenated frames returns exactly the records written |
| Framing.UniquelyDecodable | internal/agent/spool/wal.go:390-430 | two lists of frames have equal bytes only if they are equal |
| Framing.ScanTorn | internal/agent/spool/wal.go:398-416 | frames followed by a strict prefix of one more are read as the frames, and cut at their total length |
| Framing.ScanSound | internal/agent/spool/wal.go:390-430 | whatever is on disk, the part that a scan accepts is a written log |
| Framing.OversizeRejected | internal/agent/spool/wal.go:410-412 | a frame above the reader's limit makes the scan fail at its offset |
| Framing.OneByteDamageRejected | internal/agent/spool/wal.go:406-423 | any change of one byte of a stored frame outside its length field is reported at the frame's offset |
| Text.TrimSpaceExact | internal/agent/spool/wal.go:224-227 | trimming removes the white space at both ends, all of it and nothing else |
| Spool.CanonEncodes | internal/agent/spool/wal.go:666-701 | a stored commit decodes to itself with its payload compacted, and encodes to the same bytes again |
| Spool.CommitWellFormed | internal/agent/spool/wal.go:482-490 | committing keeps used bytes, orders and storability of the index |
| Spool.AckWellFormed | internal/agent/spool/wal.go:505-510 | acknowledging keeps them |
| Spool.QuarantineWellFormed | internal/agent/spool/wal.go:498-503 | quarantining keeps them |
| Spool.RecoveredCommit | internal/agent/spool/wal.go:434-442 | replaying the commit record does to the recovered index what Commit does to the live one |
| Spool.RecoveredAck | internal/agent/spool/wal.go:443-453 | the same for the acknowledgement record |
| Spool.RecoveredMark | internal/agent/spool/wal.go:463-475 | the same for the quarantine record |
| Spool.RecoveredCheckpoint | internal/agent/spool/wal.go:454-462 | the same for the checkpoint record |
| Spool.RecoveredExact | internal/agent/spool/wal.go:432-480 | which records recovery accepts: of a known kind, readable, with valid fields, and about a batch that is where the record says |
| Spool.CommitAgrees | internal/agent/spool/wal.go:482-490 | commits keep the recovered and the live index showing the same queues |
| Spool.AckAgrees | internal/agent/spool/wal.go:505-510 | acknowledgements keep it |
| Spool.QuarantineAgrees | internal/agent/spool/wal.go:498-503 | quarantines keep it |
| Compaction.CompactFits | internal/agent/spool/wal.go:555-628 | everything that compaction writes can be written and read back |
| Compaction.CompactReplays | internal/agent/spool/wal.go:562-628 | the compacted log replays to the same pending and quarantined batches in order, checkpoints and used bytes |
| Wal.CommitKeeps | internal/agent/spool/wal.go:151-180 | after Commit, whatever its outcome, the log replays to what the spool shows |
| Wal.AckKeeps | internal/agent/spool/wal.go:184-215 | the same after Ack, with any outcome of the compaction it may start |
| Wal.CompactKeeps | internal/agent/spool/wal.go:547-664 | compaction changes the log and nothing that is live |
| Wal.CompactReclaims | internal/agent/spool/wal.go:547-664 | a compacted log has one record for each pending batch, two for each quarantined one, one for each checkpoint and no acknowledgement |
| Wal.QuarantineKeeps | internal/agent/spool/wal.go:220-251 | after a Quarantine that wrote a record the log is readable if and only if the record fits the limit |
| Wal.TransitionKeeps | internal/agent/spool/wal.go:320-350 | the same for Transition, which changes nothing on a conflict |
| Wal.QuarantineCanBreak | internal/agent/spool/wal.go:220-251 | from every state with a pending batch, an error code above the limit makes Quarantine succeed and the log unreadable |
| Wal.TransitionCanBreak | internal/agent/spool/wal.go:320-350 | from every state, a source key above the limit makes Transition succeed and the log unreadable |
| Wal.OversizeBreaks | internal/agent/spool/wal.go:410-412 | one record above the limit makes the whole spool impossible to open |
| Wal.CommitShows | internal/agent/spool/wal.go:151-180 | exactly when Commit succeeds, and that the batch is then the newest pending one with its checkpoint and bytes |
| Wal.CommitRefused | internal/agent/spool/wal.go:151-180 | why Commit fails, each outcome exactly when: bad arguments, a record above the limit, a closed spool, a used id, no space, or the file |
| Wal.AckExact | internal/agent/spool/wal.go:184-215 | on an open spool a batch on disk is taken off if and only if the record was written; a failed write changes nothing; without a compaction exactly that record is added; with one only a file that cannot be reopened closes the spool |
| Wal.AckIdle | internal/agent/spool/wal.go:193-200 | on a closed spool, or for a batch that is not on disk, nothing happens |
| Wal.AckShows | internal/agent/spool/wal.go:184-215 | a written acknowledgement removes the batch from its queue and frees its bytes; nothing else moves |
| Wal.QuarantineShows | internal/agent/spool/wal.go:220-251 | a quarantined batch moves to the end of the other queue with its bytes still counted |
| Wal.QuarantineExact | internal/agent/spool/wal.go:220-251 | each outcome of Quarantine exactly when, and that the batch is then kept with the status and the trimmed code of the reply |
| Wal.TransitionExact | internal/agent/spool/wal.go:320-350 | a transition conflicts exactly if the stored checkpoint is not at the expected key, file and offset, or is there when none was expected; done, it changes that checkpoint alone |
| Wal.ViewExact | internal/agent/spool/wal.go:253-318 | what the spool shows is every pending and quarantined batch in the order of its queue, the checkpoints and the used bytes |
| Wal.AgreeShowsSame | internal/agent/spool/wal.go:253-289 | indexes that agree show the same pending and quarantined lists, checkpoints and used bytes |
| Wal.ReopenShowsSame | internal/agent/spool/wal.go:106-149 | reopening after a crash, with any torn tail, shows what was live and keeps the invariant |
| Wal.RunKeeps | internal/agent/spool/wal.go:86-104 | the invariant holds after every sequence of operations, compactions, crashes and reopenings |
| Wal.ReachableIsRecoverable | internal/agent/spool/wal.go:390-510 | in every reachable state recovery accepts the log and rebuilds the live queues, checkpoints and used bytes |
| Wal.UsedBytesExact | internal/agent/spool/wal.go:171-177 | used bytes are always the total of the held records, and at most MaxBytes |
| Wal.FileIdsAreSeen | internal/agent/spool/wal.go:168-170 | no batch id that is committed in the file can be committed again |
| SwapFiles.TraceRecoverable | internal/agent/spool/wal.go:629-664 | at every point of the swap, failures included, the log is in place in one version or aside as the backup |
| SwapFiles.RecoveredDisk | internal/agent/spool/wal.go:781-801 | any number of interrupted recoveries and one that finishes leave one log and no other file |
| SwapFiles.CompactionCrashSafe | internal/agent/spool/wal.go:547-664 | a crash after any step of a compaction, recovered and replayed, shows the same spool |
| WalFile.WAL.Recover | internal/agent/spool/wal.go:390-430 | the loop accepts exactly the logs that replay, rebuilds the maps, and cuts the torn tail |
| WalFile.WAL.ApplyRecovered | internal/agent/spool/wal.go:432-480 | one record changes the maps as replay does, or is refused |
| WalFile.WAL.Commit | internal/agent/spool/wal.go:151-180 | the method changes maps and file as the operation says, and keeps the file equal to its records |
| WalFile.WAL.Ack | internal/agent/spool/wal.go:184-215 | the same for Ack, including the compaction it may start; a batch on disk of an open spool is gone afterwards if and only if the record was written |
| WalFile.WAL.Quarantine | internal/agent/spool/wal.go:220-251 | the same for Quarantine |
| WalFile.WAL.Transition | internal/agent/spool/wal.go:320-350 | the same for the compare-and-set of a checkpoint |
| WalFile.WAL.CompactLocked | internal/agent/spool/wal.go:547-664 | the new file holds exactly the live index, and the swap decides which file is in place |
| WalFile.WAL.WritePending | internal/agent/spool/wal.go:562-578 | the loop writes one commit record for each pending batch, in order |
| WalFile.WAL.WriteQuarantined | internal/agent/spool/wal.go:579-608 | the loop writes a commit and a quarantine record for each quarantined batch, in order |
| WalFile.WAL.WriteCheckpoints | internal/agent/spool/wal.go:611-628 | the loop writes every checkpoint, sorted by source key |
| WalFile.WAL.Pending | internal/agent/spool/wal.go:253-263 | the list is the batches still pending, in commit order |
| WalFile.WAL.Peek | internal/agent/spool/wal.go:268-277 | the answer is the first of that list |
| Tailing.LinesConcat | internal/agent/source/durable_file.go:126-141 | the records of a text split at any line boundary are those of its parts |
| Tailing.LinesSpell | internal/agent/source/durable_file.go:126-141 | the records of a complete text, each followed by a newline, or by a carriage return and a newline which the record lost, spell exactly that text |
| Tailing.PollReadsALine | internal/agent/source/durable_file.go:123-156 | however a line arrives in chunks, the record is that line without its newline, and without a carriage return before it exactly if there is one, and ends at its newline |
| Tailing.PollDecides | internal/agent/source/durable_file.go:124-180 | the outcome is decided by the first read that completes a line, or finds another file at the path: an error after part of a line, a rotation the second time in a row |
| Tailing.DurableFileSource.NextRecord | internal/agent/source/durable_file.go:123-156 | the loop over reads returns the record, the rotation or the error that the polling function gives |
| Tailing.DurableFileSource.TakeTurn | internal/agent/source/durable_file.go:124-180 | one turn changes the source as the functions for a line, an end of file and a rotation say |
| Tailing.Pipeline.FlushEntries | internal/agent/reliable/agent.go:206-234 | a flush retries while the spool is full, and commits all entries with the checkpoint of the last, or nothing |
| Tailing.StepKeeps | internal/agent/reliable/agent.go:243-297 | reading, handing over, flushing, rotating, crashing and restarting keep the tailing invariant |
| Tailing.TailingExact | internal/agent/reliable/agent.go:172-298 | in every reachable state the committed records of a file are exactly its lines up to its last checkpoint, and with their line ends spell that part of the file |
| Tailing.CaughtUp | internal/agent/source/durable_file.go:224-228 | when a rotation is due and flushed, the durable checkpoint stands where the source does |
| Tailing.RotationExact | internal/agent/source/durable_file.go:195-240 | a rotation never conflicts, leaves every line it saw committed, and loses lines exactly if a newline came later |
| Tailing.RotationCanLose | internal/agent/source/durable_file.go:195-240 | for any path, new file and bytes with a newline, a run that rotates to the new file while a line of those bytes is on the old one and not committed |
| Tailing.RestoreExact | internal/agent/source/durable_file.go:87-109 | when a path is back at an earlier file, reopening keeps its records exact if and only if it is the tailed file or nothing of it was committed |
| Tailing.RestoredTwice | internal/agent/source/durable_file.go:87-109 | from every state where something of a file is committed and the checkpoint is elsewhere, reopening that file can commit each of its committed lines again, so that they stand there twice |
| Tailing.ReplacedAfterCommit | internal/agent/source/durable_file.go:87-109 | such a state is reached: a line is committed, the file is replaced, and the Agent restarts |
| CanonicalNumber.NormalizeValue | internal/protocol/ingestv1/protocol.go:388-396 | trimming zeros and moving the dot keep the exact value |
| CanonicalNumber.NormalUnique | internal/protocol/ingestv1/protocol.go:388-396 | a value has one trimmed form: same digits, same position, same sign |
| CanonicalNumber.RenderValue | internal/protocol/ingestv1/protocol.go:401-417 | each of the four layouts reads back as the value it was written for |
| CanonicalNumber.CanonicalKeepsValue | internal/protocol/ingestv1/protocol.go:357-418 | the canonical text denotes exactly the value of the input |
| CanonicalNumber.CanonicalForm | internal/protocol/ingestv1/protocol.go:397-417 | the canonical text is a JSON number without needless zeros, with an exponent exactly for values other than zero outside of a millionth to 10^21, and then one digit before the dot |
| CanonicalNumber.SameTextIffSameValue | internal/protocol/ingestv1/protocol.go:357-418 | two accepted texts get the same canonical text if and only if they denote the same value |
| CanonicalNumber.JsonNumberAccepted | internal/protocol/ingestv1/protocol.go:367-390 | every JSON number (section 6 of RFC 8259) is read, and accepted exactly when its exponent is within 100000 |
| CanonicalNumber.JsonNumbersCanonical | internal/protocol/ingestv1/protocol.go:357-418 | JSON numbers in any spelling get equal texts if and only if their values are equal |
| CanonicalNumber.CanonicalAgain | internal/protocol/ingestv1/protocol.go:374-376 | a canonical text is accepted again, unchanged, exactly when its own exponent is in range |
| CanonicalNumber.AcceptanceDependsOnSpelling | internal/protocol/ingestv1/protocol.go:374-376 | an accepted number whose canonical text is refused |
| CanonicalNumber.CanonicalChars | internal/protocol/ingestv1/protocol.go:401-417 | canonical numbers contain no delimiter of JSON |
| CanonicalNumber.Canonicalize | internal/protocol/ingestv1/protocol.go:359-418 | the code's steps and its trimming loop compute the function that the lemmas are about, errors included |
| Text.LessExact | internal/protocol/ingestv1/protocol.go:328-346 | the order of keys is decided at the first difference, and a proper beginning comes first |
| CanonicalJson.EscapeUnique | internal/protocol/ingestv1/protocol.go:352-355 | an escaped string followed by a quote has one reading |
| CanonicalJson.PrintUnique | internal/protocol/ingestv1/protocol.go:281-350 | printed values followed by any delimited text are equal only if the values are the same and so is the rest |
| CanonicalJson.DepthExact | internal/protocol/ingestv1/protocol.go:281-284 | for every depth, arrays nested that deep print exactly up to the limit |
| CanonicalJson.SamePrints | internal/protocol/ingestv1/protocol.go:281-350 | values equal up to key order and number spelling print the same |
| CanonicalJson.SamePrintIffSame | internal/protocol/ingestv1/protocol.go:273-350 | within the depth limit two values print the same bytes exactly when they are the same |
| CanonicalJson.AppendCanonical | internal/protocol/ingestv1/protocol.go:281-350 | the recursive printer appends that text, and fails exactly on depth or exponent |
| CanonicalJson.AppendItems | internal/protocol/ingestv1/protocol.go:319-329 | its loop over an array |
| CanonicalJson.AppendMembers | internal/protocol/ingestv1/protocol.go:330-346 | its loop over the sorted keys of an object |
| CanonicalPayload.TokensUnique | internal/protocol/ingestv1/protocol.go:196-229 | a text of fixed parts, quoted fields, numbers and values has one reading |
| CanonicalPayload.SamePayloadIffSame | internal/protocol/ingestv1/protocol.go:192-230 | two requests have the same canonical payload exactly when they agree in every field up to id case, key order and number spelling |
| JsonText.PrintSays | internal/protocol/ingestv1/protocol.go:281-355 | what the printer writes is a JSON text (RFC 8259) that says the value, with ascending keys |
| JsonText.PayloadSays | internal/protocol/ingestv1/protocol.go:192-230 | the canonical payload is a JSON text with every field of the request and of its entries under its own name, in order |
| CanonicalPayload.WritePayload | internal/protocol/ingestv1/protocol.go:192-230 | the writer's loop over the entries builds that payload, or fails when attributes have no canonical form |
| Admission.EvictionInvisible | internal/server/admission/limiter.go:230-259 | with cleanup every request gets the decision and retry time it would get from a limiter that never forgets |
| Admission.CleanupExact | internal/server/admission/limiter.go:230-246 | a cleanup that is due forgets exactly the keys, and the projects without reservations, that were idle longer than the time to live |
| Admission.RemembersRecent | internal/server/admission/limiter.go:230-246 | in every run, what is remembered after a request was seen within the time to live and a minute, or has open reservations |
| Admission.RunConserves | internal/server/admission/limiter.go:129-228 | in every run buckets stay in bounds, inflight counts the open reservations, and what was taken is bounded by what flowed in |
| Admission.KeyRateConserved | internal/server/admission/limiter.go:143-157 | over every stretch of every run, the requests of a key that its bucket let through, granted or refused by the project, are at most its capacity and what flowed in |
| Admission.TakesExactly | internal/server/admission/limiter.go:148-199 | a request takes exactly one token of its key unless the key has none, a granted one also its entries, its bytes and one place, and nothing of anyone else |
| Admission.FinishGivesBack | internal/server/admission/limiter.go:208-228 | the end of a reservation gives back its place and, with a refund, its cost up to the capacity |
| Admission.ReleaseUndoesGrant | internal/server/admission/limiter.go:208-228 | a grant released at the same instant leaves the project's budgets and places as they were |
| Admission.GrantedExactlyWhen | internal/server/admission/limiter.go:129-199 | a request is granted exactly when every budget holds its cost at that time |
| Admission.RefusedExactlyWhen | internal/server/admission/limiter.go:133-185 | each refusal exactly when its budget is the first, in the order of the checks, that does not hold the cost |
| Admission.RetryAfterExact | internal/server/admission/limiter.go:261-268 | the retry time is the least whole number of milliseconds after which the cost is available |
| Admission.RetryAfterSuffices | internal/server/admission/limiter.go:147-184 | a refused request passes the check that refused it after the advertised time, and fails it any millisecond earlier |
| Admission.HeaderNeverShorter | internal/server/httpapi/errors.go:47-52 | the header in whole seconds (section 10.2.3 of RFC 9110) is at least one, never shorter than the wait, and otherwise less than a second longer |
| Admission.Limiter.EvictKeys | internal/server/admission/limiter.go:235-239 | the deleting loop leaves exactly the keys seen within the time to live |
| Admission.Limiter.EvictProjects | internal/server/admission/limiter.go:240-244 | the deleting loop leaves exactly the projects in use or seen within it |
| Admission.Limiter.CleanupLocked | internal/server/admission/limiter.go:230-246 | cleanup happens at most once a minute |
| Admission.Limiter.AllowIngest | internal/server/admission/limiter.go:129-199 | the method decides and updates the maps as the operation on values does |
| Admission.Limiter.Finish | internal/server/admission/limiter.go:208-228 | the end of a reservation returns or keeps its cost and lowers inflight |
| Admission.Reservation.Settle | internal/server/admission/limiter.go:284-289 | only the first settlement has an effect |
| Tables.LowerExact | internal/domain/ids.go:28-44 | of the letters that a valid id may have, exactly the capital ones become small in the tables |
| Tables.InsertKeeps | internal/storage/postgres/ingest.go:18-84 | a committed new batch keeps usage equal to the batches, and no log entry doubled |
| Tables.InsertShows | internal/storage/postgres/ingest.go:51-84 | exactly the entries of the new batch appear |
| Tables.InsertSays | internal/storage/postgres/ingest.go:77-80 | the new rows say, in order and field by field, what the entries say, under the batch's project, id, agent and pipeline; the others stay |
| Tables.UsageAtMinute | internal/storage/postgres/usage.go:13-27 | exactly the bucket of the minute that the time falls into is charged |
| Tables.DeleteShows | internal/storage/postgres/retention.go:63-104 | exactly the named rows are removed, and nothing else changes |
| Tables.DeleteKeeps | internal/storage/postgres/retention.go:63-104 | deleting entry rows, whichever they are, keeps batches and usage consistent |
| Ingest.AcceptKeepsTables | internal/server/ingest/service.go:149-226 | every outcome of Accept keeps the tables consistent |
| Ingest.AcceptInsertsOnce | internal/server/ingest/service.go:193-215 | no outcome changes or drops a stored batch; a refusal changes nothing unless its commit went unseen |
| Ingest.MaySendExactly | internal/server/ingest/service.go:110-147 | the checks before admission pass exactly for a principal with the scope, its own project and agent, valid ids, and a complete batch whose entries are numbered in order |
| Ingest.StoredExactlyWhenAllowed | internal/server/ingest/service.go:126-220 | a new batch is stored exactly for an allowed and admitted request whose transaction commits, and accepted exactly if that was seen |
| Ingest.StoredAsSent | internal/server/ingest/service.go:193-215 | the stored batch has every field of the request, and its rows say what the request's entries say |
| Ingest.RefusedBecause | internal/server/ingest/service.go:110-153 | each refusal up to admission exactly when its check is the first to fail |
| Ingest.TurnedAwayBecause | internal/server/ingest/service.go:163-191 | each refusal of the transaction exactly when, in the order of its checks |
| Ingest.ChargesWhatIsSent | internal/server/ingest/service.go:149-156 | a granted request takes one token of the principal's key, and of its project as many entries and bytes as were sent |
| Ingest.AnswerMeansStored | internal/server/ingest/service.go:193-227 | accepted and duplicate both mean that this hash is committed under this id |
| Ingest.RetryVerdict | internal/domain/models.go:202-210 | the verdict on a stored id: duplicate, conflict or invalid, each with its exact condition |
| Ingest.CapitalIdIsNotRecognized | internal/domain/models.go:202-210 | a batch with a capital in its id is accepted and its retry refused as invalid |
| Ingest.Database.InsertEntries | internal/storage/postgres/ingest.go:51-84 | the loop inserts every entry under consecutive row ids, each row saying what its entry says |
| Ingest.Database.InsertBatch | internal/storage/postgres/ingest.go:18-41 | a taken key inserts nothing and says so |
| Ingest.Database.AddUsage | internal/storage/postgres/usage.go:13-27 | the minute's bucket grows by the batch, others stay |
| Ingest.Service.WithinTx | internal/server/ingest/service.go:51-53 | changes stay exactly if the body succeeded and the commit took effect |
| Ingest.Service.Accept | internal/server/ingest/service.go:110-227 | tables and answer are those of the operation; admission cost is kept exactly for an accepted answer |
| Transport.ReplyClassified | internal/agent/reliable/transport.go:76-145 | the class, code and wait of every reply, from the server or from anything between: each class exactly when |
| Transport.StatusTells | internal/server/httpapi/errors.go:63-110 | which refusals have which status, and that only a rate limit names a wait |
| Transport.DateReadExactly | internal/agent/reliable/transport.go:158-163 | a Retry-After that is no number is the time until its date, or none |
| Transport.AnswersClassified | internal/agent/reliable/transport.go:85-145 | which answers of Accept the Agent takes as acknowledged, retryable, blocked or to be quarantined |
| Transport.HeaderReadExactly | internal/agent/reliable/transport.go:147-157 | for every number of seconds that an int64 holds, the header is read as written if and only if it is at most 9,223,372,036, and as negative if and only if the wrapped product has its highest bit |
| Transport.RetryAfterSurvives | internal/agent/reliable/transport.go:147-163 | the limiter's wait, rounded into the header and read back, is never shorter and less than a second longer if and only if it is at most 9,223,372,036 seconds |
| Transport.RetryAfterWraps | internal/agent/reliable/transport.go:152-157 | the last header that is read as written, the next one, which is negative, and a larger one that is positive and too short |
| Dispatcher.BackoffDelay | internal/agent/reliable/dispatcher.go:202-217 | the doubling loop gives the lesser of the maximum and base times two to the attempt minus one, never passing the maximum |
| Dispatcher.Applied | internal/agent/reliable/dispatcher.go:99-106 | the applied delay lies between zero and the maximum and honours the server's wait up to it |
| Dispatcher.DelayAtLeast | internal/agent/reliable/dispatcher.go:97-106 | without jitter, a wait below the maximum is at least base times two to the failures minus one, and at least what the server asked for |
| Dispatcher.ScanPending | internal/agent/reliable/dispatcher.go:143-159 | the scan returns the first batch in order whose block has expired, or the positive time to the earliest unblock |
| Dispatcher.ChoiceUnique | internal/agent/reliable/dispatcher.go:135-160 | the right choice is determined by the queue, the schedule and the clock |
| Dispatcher.Dispatcher.NextPending | internal/agent/reliable/dispatcher.go:135-160 | the shortcut that only peeks gives the answer of the full scan |
| Dispatcher.Dispatcher.Handle | internal/agent/reliable/dispatcher.go:86-131 | what each class of reply does: an acknowledged batch is off the disk if the record was written; a failed one is put off by exactly the jittered exponential of its failures in a row, the server's wait if longer, clamped; no other batch's attempts or block change; the spool stays valid unless the reply asks for a quarantine record above the limit |
| Dispatcher.Dispatcher.Run | internal/agent/reliable/dispatcher.go:68-133 | over any sequence of replies, whose quarantine records for the batches on disk fit the limit: the spool stays valid, every batch that left the disk was acknowledged, no batch is sent again before the block of its last failure has passed, every block is the right one for its failures in a row, and only replies that are not terminal are gone past |
| Delivery.StepKeepsInv | internal/agent/reliable/dispatcher.go:68-133 | every step of Agent, network, server and retention keeps the protocol invariant |
| Delivery.EffectivelyOnce | internal/server/ingest/service.go:160-226 | in every reachable state: inserted at most once, acknowledged means committed as spooled, nothing lost, no own conflict |
| Delivery.UsageConserved | internal/storage/postgres/usage.go:13-27 | in every reachable state each project's usage is the total of its committed batches |
| Delivery.EntriesStoredOnce | internal/storage/postgres/ingest.go:51-84 | in every reachable state no log entry is stored twice or without its batch |
| Delivery.RowsSayWhatWasSent | internal/storage/postgres/ingest.go:51-84 | in every reachable state each stored row says, field by field, what the entry in its place says in the request the server read; for the Agent's own batches that was a body it sent |
| Delivery.OwnAnswerTrue | internal/domain/models.go:202-210 | the answer to an Agent's own request is never a conflict, and a positive one names a stored batch |
| EndToEnd.StepKeeps | internal/agent/reliable/agent.go:172-298 | tailing, flushing through the spool, rotating, delivering, crashing and restarting keep the invariant that links file, spool and server |
| EndToEnd.EveryLineAccountedFor | internal/agent/reliable/agent.go:206-234 | in every reachable state the lines of a file up to its checkpoint, spelling that part of the file, are the records of batches, each on the Agent's disk, discarded, or committed at most once on the server with the hash of what was made from those lines |
| EndToEnd.FlushEntries | internal/agent/reliable/agent.go:206-234 | the retry loop over the WAL, with acknowledgements between attempts, ends at the first attempt that a full spool does not refuse, and leaves the batch pending with its checkpoint, or neither |
| EndToEnd.FlushGivesUp | internal/agent/reliable/agent.go:216-227 | a flush gives up exactly if every attempt met a full spool |
| EndToEnd.HandleReply | internal/agent/reliable/dispatcher.go:86-131 | the dispatcher object does to the spool what the delivery protocol says |
| EndToEnd.StoredSaysWhatWasMade | internal/protocol/ingestv1/protocol.go:159-232 | a readable body has the hash of the one that was made if and only if the two agree in every field up to id case, key order and number spelling, or their texts are a collision |
| Like.ContainsPatternExact | internal/storage/postgres/entry.go:99-102 | a message matches the pattern if and only if the term occurs in it literally |
| Like.EscapeNeeded | internal/storage/postgres/entry.go:99-102 | without the escape a term matches the messages that contain it, and no others, if and only if it has no special character |
| Paging.AppendIn | internal/storage/postgres/entry.go:61-75 | the loop adds one numbered placeholder per value, and with them exactly the membership condition |
| Paging.BuildEntryQuery | internal/storage/postgres/entry.go:54-97 | the statement with its numbered arguments selects exactly the filtered rows below the cursor |
| Paging.List | internal/storage/postgres/entry.go:25-51 | a row more than a page is not shown; it makes the last shown row the next cursor |
| Paging.PageSplits | internal/storage/postgres/entry.go:45-51 | every visible row is on the page or below its cursor; a page has a cursor exactly if rows are left, and is then full |
| Paging.WalkDescends | internal/storage/postgres/entry.go:83-96 | following Next, keys go strictly down, whatever happens to the table |
| Paging.WalkEnds | internal/storage/postgres/entry.go:45-51 | over a fixed table following Next ends |
| Paging.FixedWalkExact | internal/storage/postgres/entry.go:45-97 | over a fixed table any mix of page sizes gives exactly the filtered rows in order |
| Paging.WalkExact | internal/storage/postgres/entry.go:45-97 | while rows come and go no row repeats, and a row present throughout appears |
| Search.CursorRoundTrip | internal/server/query/service.go:319-369 | a cursor opens to its position for its own project and filters, and for no others |
| Search.NormalizeFilter | internal/server/query/service.go:263-284 | the loop builds the sorted set of trimmed values, or refuses a bad one |
| Search.FilterOrderIrrelevant | internal/server/query/service.go:263-284 | order and repetition of filter values change neither query nor cursor |
| Search.BuildQueryExact | internal/server/query/service.go:212-249 | which parameters are refused, and which filter of the query each of the others becomes |
| Search.FiltersBound | internal/server/query/service.go:244-249 | queries with the same fingerprint have the same range, filters and message, or show a collision |
| Search.FirstPage | internal/server/query/service.go:141-182 | without a cursor the answer is the first page of the query, with a cursor exactly if there is a next one, and fails exactly if there is no query |
| Search.ForeignCursorRefused | internal/server/query/service.go:152-160 | a cursor opens exactly for its own project and filters and a position in the range |
| Search.IssuedCursorAccepted | internal/server/query/service.go:152-182 | a cursor the service issued is accepted for the same project and filters, and continues after the last row |
| Semaphore.InvKept | internal/server/bootstrap/limiter.go:26-64 | every atomic part keeps the counters equal to what they count and callers on the semaphore in the map |
| Semaphore.CapacityNeverExceeded | internal/server/bootstrap/limiter.go:26-64 | under every interleaving at most the capacity holds, all on the semaphore in the map |
| Semaphore.DeletedOnlyUnused | internal/server/bootstrap/limiter.go:57-64 | an entry is deleted only when its semaphore has no user |
| Semaphore.RefusedOnlyWhenFull | internal/server/bootstrap/limiter.go:39-55 | the fail-fast branch refuses only when the capacity is in use |
| Semaphore.ProjectLimiter.Join | internal/server/bootstrap/limiter.go:30-37 | the first part under the lock, in place |
| Semaphore.ProjectLimiter.TrySend | internal/server/bootstrap/limiter.go:39-55 | the select: a token exactly when there is room |
| Semaphore.ProjectLimiter.Receive | internal/server/bootstrap/limiter.go:44-45 | the receive of the release function, which always finds its token |
| Semaphore.ProjectLimiter.ReleaseUser | internal/server/bootstrap/limiter.go:57-64 | leaving, and deleting the entry of an idle semaphore |

## Left out

- Wal.ReachableIsRecoverable: assumes that quarantine and checkpoint records fit the record limit, since the code does not check it; the exact condition is proved in Wal.QuarantineKeeps and Wal.TransitionKeeps.
- Delivery.EffectivelyOnce: takes batch ids as fresh and in lower case and positive acknowledgements as coming from the server only; it is a safety claim and says nothing about when a batch is delivered.
- Tailing.TailingExact: does not cover copytruncate, where the code resets its offset without a durable transition; a path that is renamed back to a file with committed records is left to Tailing.RestoreExact.
- Tailing.RotationExact: is about live rotations; after a rotation while the Agent is stopped the rest of the old file is never read.
- Admission.RunConserves: uses real numbers for float64 tokens, so rounding is not modelled.
- Dispatcher.BackoffDelay: is the delay without jitter; the jitter is an arbitrary factor, on real numbers, followed by the code's clamp.
- Search.CursorRoundTrip: treats HMAC as a function, so it says which cursors open, not that they cannot be forged.
- EndToEnd.EveryLineAccountedFor: follows one pipeline; other pipelines have other source keys and are arbitrary commits and transitions on the same spool.
- EndToEnd.FlushEntries: a wait that is given up ends as Full; between attempts the dispatcher acknowledges and nothing else happens.
- Dispatcher.Dispatcher.Run: assumes of a reply that asks for quarantine that the record for a batch on disk fits the limit, which the code does not check; the exact condition is Wal.QuarantineKeeps.
- Tables.InsertSays: rows are modelled without their attributes column; attributes are covered by the canonical payload and its hash.
- Wake-up of `WAL.changed` and `WaitForSpace`: a one-slot channel shared by several waiters; a flush on a full spool is a sequence of attempts.
- Context cancellation of the spool operations before they start, and the Stats counters.
- `Normalize` validation of request fields and the hash itself; two payloads are compared by their canonical text, or by an abstract hash.
- The float64 and integer branches of the canonical printer, which a decoder that keeps numbers as text does not reach.
- Invalid UTF-8: strings are sequences of Unicode characters, so the replacement of bad bytes is not modelled.
- The text of SQL statements beyond conditions and placeholders, and the driver; rows deleted by retention are any set of rows, a superset of what the bounded deletes choose.
- Parsing of records into entries, batch building, heartbeats, pipeline states and control state.
- Project, agent and pipeline lookups are inputs of Accept; authentication and the control plane are not modelled.
- Server-side quarantine tables, observers and metrics, configuration, the web console and the legacy sender.
