# pkcs11-proxy-ng: models and proofs

A Dafny model of four parts of pkcs11-proxy-ng, and of three dependency walks in its release scripts, with
proofs of what they promise. `dafny verify dfyconfig.toml` checks the whole project.

**Audit log** (`Audit*.dfy`). The writer chains records by hash, rotates and prunes files, seals them with
signed checkpoints and an anchor, and finds its place again after a restart; its task serves a channel of
records, flush requests and timer ticks. The verifier replays a directory in one pass with capped samples. The record hash, the signature scheme and key parsing are parameters, so
every result holds for any of them; the two results about tampering name the hash collisions they exclude.
`StreamReplay` and `WriterState` are classes with the source's fields. The writer changes its directory one
file operation at a time, and its ghost field `trace` holds the directory after every one, the last being the
present one, so that a crash can be placed between any two. `AuditTask` is the writer task as a transition
system, `AuditTaskLoop` its loop, which is shown to go through a run of it.

**Schema compiler** (`WireSchema`, `WipeClosure`, `CopyMirror`, `WipeAttributes`, `WipeOnDrop`, `Proto*.dfy`).
The build script tokenizes and parses the `.proto` files, closes the set of classified messages over
containment, decides which derives each message gets and which fields are skipped, and emits descriptor
tables. `WipeOnDrop` gives the emitted derives a meaning: values are trees, `Zeroize` and `Drop` act on them.

**Lifecycle** (`Lifecycle*.dfy`). Initialize and Finalize of the loaded provider, with ordinary calls beside
them, as a transition system: any number of calls overlap, each atomic access to the tracker, each lock
acquisition and each return from the provider is one step. Extra state says what the provider really is
(initialized since its last successful Finalize, live sessions, incarnation). `LifecycleSolo` says what the
steps of one call amount to when it is alone.

**Ownership guards** (`ObjectCleanup`, `MintCapture`). Destroy-once-or-quarantine over interleaved drops, and
nested captures of minted lifetimes on one thread.

**Dependency walks** (`DependencyWalks`, `NodeScopes`). The closures walked over Cargo metadata.

`Graphs`, `Sorting`, `Text`, `Words` and `Wrappers` are shared.

## Where the code does not do what it says

- *A crash cannot re-issue sequence numbers* (`crates/server/src/server/audit.rs:711-712`). It can, inside a
  rotation. Once the active file is renamed and until the anchor is replaced, a restart resumes from the old
  anchor; it is exact if and only if nothing was written since that anchor. Once the anchor is replaced it
  already counts the line still to be written, and a restart skips that number. `RestartExactly` proves both
  for every coherent directory and `RenameForgets` is the smallest case.
- *A flush is acknowledged once the log is sealed* (`crates/server/src/server/audit.rs:148-149`). A request that
  arrives while another flush is being served is acknowledged at once. On every run, when a request is
  acknowledged all records sent before it are written, and the log is sealed if and only if no earlier request
  is left to acknowledge or no record is past the anchor (`AckMeans`). `EarlyAck` takes the loop over a flush, a
  record and a flush to an acknowledgement of an unsealed log.
- *A flushed log verifies* (`crates/server/src/server/audit.rs:1103-1104`). If the clock goes back between a
  record and its checkpoint, it does not (`BackwardClockRejected`); `FlushedVerifies` has the exact condition.
- *File order is numeric for digit strings of any length* (`crates/audit/src/verify.rs:323-325`). For two
  indices it is so if and only if they are equally long, or their lengths are ordered as the indices without
  leading zeros are read (`NumericPairExactly`, `LeadingZeroCounterexample`). An index is in numeric order
  against every index without leading zeros if and only if it has none itself (`NumericOrderNeedsCanonical`).
- *Duplicates are the numbers occurring more than once, each once, ascending* (`crates/audit/src/verify.rs:159-160`).
  For logs in order they are (`ReportOfOrderedLog`). Out of order a repeat can go unlisted
  (`UnorderedHidesDuplicates`) or be listed twice or out of order (`UnorderedRuns`). Before the cap they are
  complete if and only if every repeated number stands next to itself somewhere (`RunsCompleteExactly`), and
  come each once and ascending if and only if adjacent pairs do (`RunsAscendExactly`).
- *Gaps are the numbers missing within the retained range* (`crates/audit/src/verify.rs:155`). In any log all of
  those are reported (`GapsComplete`). Out of order, numbers that are present or past the end can be reported
  too (`UnorderedGaps`); none is if and only if every step up over more than one number stays within the range
  and has no record inside it (`GapsExactly`).
- *The generation cannot change while an ordinary call is admitted.* Two first Initialize calls can both
  decide to open a cycle; the earlier one may claim its generation after the later one has published and a
  call was admitted (`GenerationCanMoveUnderAdmittedCall`). The generation is fixed if and only if no
  Initialize stands at its claim (`GenerationFixedWhileAdmitted`).
- *After a failed Finalize the session count is retained until a legitimate new cycle*
  (`crates/backend/src/ffi/native_domain.rs:658-662`). The same late claim resets it to zero over a live session,
  with the failure still on record (`FailureWindowCanResetSessions`). No reset comes if and only if no
  Initialize stands at its claim with a generation left, or between claim and reset
  (`FailedFinalizeFreezesTheIncarnation`).
- *Dropping a capture restores the previously active one* (`crates/backend/src/mint_capture.rs:39-41`). Out of turn
  it restores what was active when the dropped one began; dropped in the order they were begun, two captures
  leave the first active for good (`Thread.Drop`, `DropsOutOfOrder`).

## Model

| member | source | states |
|---|---|---|
| LifecycleProof.InvReachable | crates/backend/src/ffi.rs:617-719 | the invariant that carries the lifecycle results holds in every world reachable by any interleaving of any number of calls |
| LifecycleTheorems.ReleaseIsSound | crates/backend/src/ffi/native_domain.rs:689-697 | once no call is in flight, a Release decision means no native Initialize, failed or refused ones included, completed since the last successful native Finalize, and no session is live |
| LifecycleTheorems.ReleaseExcludesService | crates/backend/src/ffi/native_domain.rs:689-697 | even with calls in flight, a Release decision read from the tracker in one look excludes live sessions and admitted work |
| LifecycleTheorems.SettlesWhenQuiescent | crates/backend/src/ffi/native_domain.rs:1596-1653 | once no call is in flight the domain is in a settled state and every lock is free |
| LifecycleTheorems.AdmittedWorkIsExclusive | crates/backend/src/ffi.rs:546-581 | while an ordinary call is admitted no Finalize is past its seal and every cached binding belongs to the current incarnation |
| LifecycleTheorems.SealIsNeverSuperseded | crates/backend/src/ffi/native_domain.rs:1655-1703 | a sealed Finalize always enters, always abandons as current, and publishes unless no epoch is left |
| LifecycleTheorems.AdmissionPinsDomain | crates/backend/src/ffi/native_domain.rs:982-1011 | the domain state, its epoch and the provider's incarnation stand still in every step through which a call stays admitted |
| LifecycleTheorems.GenerationFixedWhileAdmitted | crates/backend/src/ffi/native_domain.rs:561-593 | on every run through which a call stays admitted the generation is constant, if and only if no Initialize was at its claim |
| LifecycleRace.GenerationCanMoveUnderAdmittedCall | crates/backend/src/ffi/native_domain.rs:561-593 | a reachable interleaving in which the generation moves under an admitted call |
| LifecycleTheorems.FailedFinalizeFreezesTheIncarnation | crates/backend/src/ffi.rs:527-545 | from a recorded Finalize failure until the next Finalize publishes, on every run: the failure stays recorded over a live incarnation, a session or object entry is lost only to a close or destroy that names it or to a newer one under its handle, and the session count falls only by what a close closed or at the reset of a new cycle; no such reset comes if and only if no Initialize is at its claim with a generation left or between claim and reset, and the generation is fixed if and only if none is at its claim |
| LifecycleRace.FailureWindowCanResetSessions | crates/backend/src/ffi/native_domain.rs:576-593 | a reachable run from a recorded failure, with no publish, to a session count of zero over a live session |
| LifecycleLiveness.NoDeadlock | crates/backend/src/ffi.rs:515-526 | in every reachable world with a call in flight some call can step |
| LifecycleLiveness.EveryScheduleDrains | crates/backend/src/ffi.rs:617-732 | given that native calls return, every schedule of the calls in flight is finite and one that cannot go on has completed every call |
| LifecycleSolo.InitializeAlone | crates/backend/src/ffi.rs:617-719 | an Initialize with nothing else in flight: refused without a trace, or marked, counted and taken back to the prior state on failure, or opened, with a new generation, no sessions and no bindings exactly for a new cycle; or, at the last epoch, recorded and left uncertain |
| LifecycleSolo.FinalizeAlone | crates/backend/src/ffi.rs:497-581 | a Finalize with nothing else in flight: denied unless open with an epoch left, else every fact and binding of the incarnation cleared, or the failure recorded and the domain reopened, or, at the last epoch, nothing recorded and the domain left uncertain |
| LifecycleSolo.CleanFinalizeReleases | crates/backend/src/ffi/native_domain.rs:649-656 | after a successful Finalize alone the decision is Release, and the next Initialize a new cycle, if and only if two epochs were left |
| LifecycleSolo.AloneIsReachable | crates/backend/src/ffi.rs:617-732 | what a call does alone is reachable in the transition system from every reachable world whose other calls are done |
| AuditChain.AppendIntact | crates/audit/src/chain.rs:55-62 | a record appended at the tip keeps the log linked and consecutively numbered, and the new tip is that of the longer log |
| AuditChain.SuffixIntact | crates/audit/src/verify.rs:440-449 | a suffix of an intact log is intact and has the same head, which is what makes pruning sound |
| AuditChain.SameHeadSameHistory | crates/audit/src/chain.rs:29-34 | two linked logs with one head agree record by record from the end, unless two of their records collide |
| AuditChain.SameCheckpointSameHistory | crates/audit/src/chain.rs:29-34 | the same for the records before a head in the middle of two logs |
| AuditReplay.StreamReplay.Push | crates/audit/src/verify.rs:445-509 | after any records the running state is the saturated and capped image of what an unbounded replay of them knows, and all of them together have walked no more skipped numbers than the cap |
| AuditReplay.StreamReplay.NoteOrder | crates/audit/src/verify.rs:450-480 | the comparison with the previous number: disorder, a repeat entered once per run, or a gap |
| AuditReplay.StreamReplay.NoteGap | crates/audit/src/verify.rs:470-478 | every skipped number is counted, and they are sampled in order up to the cap, for numbers up to the largest 64-bit one, in one step per sample |
| AuditReplay.StreamReplay.NoteLink | crates/audit/src/verify.rs:485-508 | the back link is checked against the running head; hash and time are kept only for numbers asked for |
| AuditReplay.StreamReplay.Finish | crates/audit/src/verify.rs:511-531 | the report is that of an unbounded replay cut to the caps |
| AuditReplayTheorems.FactsHold | crates/audit/src/verify.rs:445-509 | the running head, link verdict and order verdict are those of the whole log |
| AuditReplayTheorems.AcceptsExactlyIntactLogs | crates/audit/src/verify.rs:241-245 | the replay's checks all pass if and only if each record points at the fold of the hash over those before it and each number is one more than the last |
| AuditReplayTheorems.ListsExact | crates/audit/src/verify.rs:450-480 | for numbers in order, the skips are exactly the absent numbers and the runs exactly the repeated ones, each once, ascending |
| AuditReplayTheorems.ReportOfOrderedLog | crates/audit/src/verify.rs:511-531 | for a log in order, gaps and duplicates are the first entries of those lists, each truncation flag is set if and only if there are more, and the missing count never saturates |
| AuditReplayTheorems.UnorderedHidesDuplicates | crates/audit/src/verify.rs:453-466 | a log out of order with a repeated number that is not reported |
| AuditReplayTheorems.RunsCompleteExactly | crates/audit/src/verify.rs:457-466 | in any log the runs are all the repeated numbers if and only if each of those stands next to itself somewhere |
| AuditReplayTheorems.RunsAscendExactly | crates/audit/src/verify.rs:457-466 | in any log the runs are strictly ascending if and only if the numbers of adjacent pairs never decrease |
| AuditReplayTheorems.UnorderedRuns | crates/audit/src/verify.rs:457-466 | two logs out of order whose duplicates descend, and repeat |
| AuditReplayTheorems.GapsComplete | crates/audit/src/verify.rs:467-479 | in any log every number missing between first and last record is reported |
| AuditReplayTheorems.GapsExactly | crates/audit/src/verify.rs:467-479 | in any log the skips are exactly those numbers if and only if every wide step up stays in range with no record inside it |
| AuditReplayTheorems.UnorderedGaps | crates/audit/src/verify.rs:467-479 | two logs out of order that report a present number, and one past the end |
| AuditReplayTheorems.LastOccurrence | crates/audit/src/verify.rs:495-498 | the hash and time kept for a number are those of its last record |
| AuditReplayTheorems.FactsDropped | crates/audit/src/verify.rs:501-508 | the tally is the sum over records that meet the whole sentinel contract |
| Text.DecimalRoundTrip | crates/server/src/server/audit.rs:804-805 | the index text of a rotated file has no leading zero and reads back as the index |
| AuditFiles.CanonicalOrder | crates/audit/src/verify.rs:326-332 | without leading zeros the reading order is the numeric order |
| AuditFiles.NumericOrderNeedsCanonical | crates/audit/src/verify.rs:319-332 | an index is ordered numerically against every index without leading zeros if and only if it has none |
| AuditFiles.NumericPairExactly | crates/audit/src/verify.rs:319-332 | any two digit strings are read in numeric order if and only if they are equally long or their lengths are ordered as they are read without leading zeros |
| AuditFiles.LeadingZeroCounterexample | crates/audit/src/verify.rs:319-332 | two indices read in the wrong order |
| AuditFiles.ReadBeforeTotal | crates/audit/src/verify.rs:307-332 | the order is strict and total on log names |
| AuditFiles.LogsSorted | crates/audit/src/verify.rs:291-304 | the logs of a listing are a permutation of its log entries, in reading order |
| AuditFiles.LogsOfAnyListing | crates/audit/src/verify.rs:291-304 | the logs of a directory do not depend on the order it is listed in |
| AuditVerify.EvalCheckpoints | crates/audit/src/verify.rs:613-679 | verified and failed count exactly the in-range lines that bind and do not bind, plus one failure when a key was given and nothing could be checked |
| AuditVerify.CheckAnchor | crates/audit/src/verify.rs:691-724 | the anchor agrees if and only if it holds head and next number, or genesis for no records; unreadable or past the largest number is an error |
| AuditVerify.ReadSidecar | crates/audit/src/verify.rs:558-597 | a bad key or a malformed line is an error, in that order; a missing sidecar is neither |
| AuditVerify.ReplayFile | crates/audit/src/verify.rs:375-389 | a file replays if and only if every line is blank or a record of the current schema |
| AuditVerify.VerifyDir | crates/audit/src/verify.rs:210-266 | an error if and only if something cannot be read; otherwise the verdict holds if and only if the records are intact, every in-range checkpoint binds, a given key sealed something, and the anchor agrees |
| AuditVerifyTheorems.EveryCheckpointCounted | crates/audit/src/verify.rs:634-671 | every in-range line is counted once, and no other |
| AuditVerifyTheorems.NeededSuffices | crates/audit/src/verify.rs:547-549 | keeping hashes and times only for checkpoint numbers gives the same counts as keeping more |
| AuditVerifyTheorems.CheckpointsExactly | crates/audit/src/verify.rs:634-671 | over consecutive numbers, no line fails if and only if each in range is signed and seals the head, count bound and time of the record it names |
| AuditVerifyTheorems.AcceptsMeans | crates/audit/src/verify.rs:241-247 | the verdict said of the log, its anchor and its checkpoints, without the replay |
| AuditVerifyTheorems.AnchorFixesHistory | crates/audit/src/verify.rs:691-724 | of two accepted directories under one anchor, checked with any keys, the shorter log is a suffix of the longer, absent collisions |
| AuditVerifyTheorems.CheckpointFixesHistory | crates/audit/src/verify.rs:650-663 | two accepted directories, checked with any keys, with a checkpoint in range of both agree on every record up to it, absent collisions |
| AuditWriter.RecoverExact | crates/server/src/server/audit.rs:465-499 | whenever the anchor agrees with the files, however far behind it is, recovery finds the exact tip |
| AuditWriter.RecoverFromAnchor | crates/server/src/server/audit.rs:465-499 | with the active file missing or empty, recovery finds the tip of the last anchor |
| AuditWriter.TracedPast | crates/server/src/server/audit.rs:703-856 | what a trace says of the directory now it says of the directory at every earlier time |
| AuditSink.WriterState.Open | crates/server/src/server/audit.rs:703-730 | on any directory a writer left between operations, a new writer resumes with the invariant |
| AuditSink.WriterState.MaxIndex | crates/server/src/server/audit.rs:590-602 | the highest index in use |
| AuditSink.WriterState.Prune | crates/server/src/server/audit.rs:615-636 | exactly the oldest files beyond the limit go, none if the limit is zero, and what stays is the end of the history |
| AuditSink.WriterState.Rotate | crates/server/src/server/audit.rs:802-820 | the active records take the next index, the oldest files beyond the limit go, the history stays filed in order, and every file operation on the way is on the trace and recoverable as `Restart` states |
| AuditSink.WriterState.WriteCheckpointLine | crates/server/src/server/audit.rs:642-667 | the line signs the last record's number, the head over the history, and a count no larger than the number plus one |
| AuditSink.WriterState.DoCheckpoint | crates/server/src/server/audit.rs:824-837 | with a signer one line more seals the last record; the anchor becomes the tip, and no log file changes |
| AuditSink.WriterState.WriteLine | crates/server/src/server/audit.rs:777-784 | the active file is rotated first exactly if it is not empty and the line would overfill it |
| AuditSink.WriterState.WriteRecordRaw | crates/server/src/server/audit.rs:772-793 | the history grows by the record as chained; files, anchor and checkpoints keep agreeing with it; no file but one of a single record is over the limit; every hundredth record seals; the trace goes on from where it was |
| AuditSink.WriterState.MaybeWriteGapSentinel | crates/server/src/server/audit.rs:737-768 | nothing changes without new drops; with them the history grows by one sentinel for exactly those |
| AuditSink.WriterState.WriteRecord | crates/server/src/server/audit.rs:795-798 | the history grows by the record, after one sentinel for any new drops, and by nothing else |
| AuditSink.WriterState.Flush | crates/server/src/server/audit.rs:841-856 | the history is kept and grows by at most a sentinel for trailing drops, and the anchor is the tip with nothing written since |
| AuditSink.WriterState.TimedCheckpoint | crates/server/src/server/audit.rs:924-936 | the timer seals the last record with one new line and anchors the tip exactly if there is something new and a signer; otherwise nothing changes |
| AuditSinkTheorems.RecordsShown | crates/audit/src/verify.rs:210-228 | reading a written directory in any listing order gives back the retained records in order |
| AuditSinkTheorems.FlushedVerifies | crates/audit/src/verify.rs:210-266 | a flushed directory, however split, pruned and listed, is accepted if and only if its records have the current schema, no record is newer than its checkpoint, and a given key finds a checkpoint in range |
| AuditSinkTheorems.SealedFlushCovers | crates/server/src/server/audit.rs:841-856 | a signed flush after a record leaves such a checkpoint |
| AuditSinkTheorems.BackwardClockRejected | crates/audit/src/verify.rs:650-663 | one record, sealed by a checkpoint an instant older, correctly chained, signed and anchored: rejected |
| AuditSinkTheorems.RestartExactly | crates/server/src/server/audit.rs:802-820 | the tip found after a crash between operations, after the rename, and after the rotation's anchor, with the exact condition |
| AuditSinkTheorems.RenameForgets | crates/server/src/server/audit.rs:802-820 | one record, no anchor, a crash after the rename: the restart begins at genesis |
| AuditTask.EveryRunKeeps | crates/server/src/server/audit.rs:865-941 | on every run of the task, for all messages and drop counts: the log holds every record received, in order, with only sentinels between; every drop shown is in exactly one sentinel; every request received is acknowledged once, except the one being served; and every directory on the way was recoverable as `Restart` states |
| AuditTask.SealedExactly | crates/audit/src/verify.rs:691-724 | between writer operations the verifier's comparison of anchor and log succeeds if and only if the anchor counts every record |
| AuditTask.AckMeans | crates/server/src/server/audit.rs:877-922 | whenever a run acknowledges a request all records before it are in the log, which is sealed if and only if no earlier request is left to acknowledge or no record is past the anchor |
| AuditTask.ClosedMeans | crates/server/src/server/audit.rs:939-941 | at the end every request has been acknowledged once and the log holds everything sent |
| AuditTaskLoop.Drain | crates/server/src/server/audit.rs:893-921 | the drain, stopping anywhere, goes on along a run of the task, with the acknowledgements it sends |
| AuditTaskLoop.WriterTask | crates/server/src/server/audit.rs:865-941 | the loop goes through a run to its end, so all of that holds of the writer, and every listing of the directory it leaves verifies exactly if schema, clock and key allow |
| AuditTaskLoop.EarlyAck | crates/server/src/server/audit.rs:904-907 | the loop's steps over a flush, a record and a flush: the second request is acknowledged with the record written and the log not sealed |
| Graphs.HasPath | crates/proto/build.rs:436-451 | the search answers yes if and only if there is a route |
| WireSchema.MessageRefEdges | crates/proto/build.rs:410-432 | it stops if and only if a non-repeated field has no type; else the edges are the non-repeated message fields, if names are distinct |
| WireSchema.EdgesByLastName | crates/proto/build.rs:410-432 | on any schema there is one entry per name, with the edges of the last message of that name |
| WipeClosure.Closure | crates/proto/build.rs:361-383 | on any schema, with the last message of each name, the closure is exactly what the owners can hold at any depth; the build stops if and only if something held is no message or has a field of unknown type |
| CopyMirror.MessageCanCopy | crates/proto/build.rs:460-473 | on every schema whose non-repeated fields have known types it ends, and says yes if and only if nothing reachable over references has a vector, string or bytes field or lies on a cycle |
| CopyMirror.FieldCanCopy | crates/proto/build.rs:475-496 | the same for one field: not on the heap, and a target that is free and does not lead back |
| CopyMirror.FreeFieldByField | crates/proto/build.rs:465-496 | the rule on the whole graph is the rule field by field |
| WipeAttributes.AttrForMessage | crates/proto/build.rs:398-400 | a message derives only `Zeroize` if and only if it is free of heap fields and cycles |
| WipeAttributes.AttrForOneof | crates/proto/build.rs:608-617 | a oneof does if and only if each of its members is free with the message as container |
| WipeAttributes.BoxedTargetHasPair | crates/proto/build.rs:179-185 | a boxed field of a wiped message has a target in the closure that derives the pair |
| WipeAttributes.SkipLoop | crates/proto/build.rs:163-192 | exactly the boxed struct fields of wiped messages are skipped, and the loop's own check never fails |
| WipeAttributes.SkipMapWhole | crates/proto/build.rs:163-192 | the skipped names are exactly those of boxed fields, for exactly the wiped messages |
| WipeOnDrop.HeapFieldIsZeroized | crates/proto/build.rs:125-139 | a wiped message with a heap field derives the pair and does not skip that field |
| WipeOnDrop.DropWipes | crates/proto/build.rs:125-192 | dropping any value of any message in the closure leaves only zeros in every buffer in it, at any depth |
| WipeOnDrop.SecretsAreWiped | crates/proto/build.rs:304-331 | in particular for every classified message |
| WipeOnDrop.Emit | crates/proto/build.rs:125-192 | the whole pass: closure, derives and skips as `DropWipes` needs them |
| ProtoLexer.TokenizeLine | crates/proto/build.rs:808-824 | the character loop gives the longest words and the six marks, in order |
| ProtoLexer.Tokenize | crates/proto/build.rs:805-827 | the same for all lines, each up to its comment |
| ProtoLexer.TokensRoundTrip | crates/proto/build.rs:805-827 | printed tokens read back as they were |
| ProtoParser.ParseTokens | crates/proto/build.rs:838-912 | the loop over one file's tokens, stopping at the first error |
| ProtoParser.ParseSchema | crates/proto/build.rs:829-922 | all files into one schema, then the last checks and the sort |
| ProtoInvariant.EveryStreamSound | crates/proto/build.rs:841-911 | for every token stream the open message is the last recorded and a oneof stands directly inside it, so the checks on context drift, missing message and enclosing block are never the ones that fail |
| ProtoInvariant.ParsedSchemaSound | crates/proto/build.rs:957-1001 | for all files a schema that comes out has distinct field numbers in range, no map types, declared and distinct oneofs with no repeated member, no streamed requests, and is sorted |
| ProtoInvariant.AcceptedIsBalanced | crates/proto/build.rs:888-913 | an accepted file's braces balance, and no prefix closes more than it opens |
| ProtoRoundTrip.MessageRuns | crates/proto/build.rs:957-1000 | the tokens of a declared message add exactly that message |
| ProtoRoundTrip.ServiceRuns | crates/proto/build.rs:947-956 | the tokens of a declared service add its name and methods |
| ProtoFiles.PrintThenParse | crates/proto/build.rs:805-922 | printing acceptable files as text, tokenizing and parsing gives the schema they declare, sorted |
| ProtoTables.EmitMessage | crates/proto/build.rs:1056-1078 | every field is described with its number, label, nested link and oneof link; an error if and only if one cannot be |
| ProtoTables.EmitRequests | crates/proto/build.rs:1044-1054 | every method's path names the index of its request message |
| ProtoTables.EmitTables | crates/proto/build.rs:1023-1079 | the tables are faithful, or some request or field has no type |
| ProtoTables.NumbersAscend | crates/proto/build.rs:1057-1060 | described numbers strictly ascend and every declared field is described |
| ProtoTables.OneofLinksAgree | crates/proto/build.rs:1064-1071 | two fields share a oneof link if and only if they are declared in the same oneof |
| ProtoTables.ParsedIsEmittable | crates/proto/build.rs:1064-1071 | on a parsed, well-typed schema every field can be described |
| ObjectCleanup.EveryObjectAccountedFor | crates/backend/src/object_cleanup.rs:58-89 | in every interleaving the provider is called for each object at most once, counted from when the call begins; each is queued exactly while responsibility for it is open, and creation is allowed if and only if none is |
| ObjectCleanup.SuccessRemovesOnlyItself | crates/backend/src/object_cleanup.rs:80-86 | a success removes its own entry and no other, also with equal handles |
| ObjectCleanup.FailureIsForEver | crates/backend/src/object_cleanup.rs:23-31 | after one failure the check fails for ever and the object's identity and outcome stay on record |
| MintCapture.HoldsAfter | crates/backend/src/mint_capture.rs:60-93 | one more report or poison keeps the list right: last report per handle since its last poison, no handle twice, in order of entry |
| MintCapture.Thread.Begin | crates/backend/src/mint_capture.rs:43-49 | a new innermost capture, empty, over whatever was active |
| MintCapture.Thread.ReportLifetime | crates/backend/src/mint_capture.rs:78-92 | only what is active is reached, if it is of that session, and not by a null handle or zero lifetime; in turn that is the innermost capture, and in any case what is active holds exactly what the calls that reached it leave |
| MintCapture.Thread.PoisonHandle | crates/backend/src/mint_capture.rs:60-71 | the same for a poison |
| MintCapture.Thread.Drop | crates/backend/src/mint_capture.rs:126-132 | closing the innermost capture restores the one around it unchanged; closing another restores what was active when it began, which is the innermost one open if and only if the two hold the same |
| MintCapture.DropsOutOfOrder | crates/backend/src/mint_capture.rs:126-132 | two captures dropped in the order they were begun leave none open and the first active |
| MintCapture.Thread.LifetimeFor | crates/backend/src/mint_capture.rs:118-123 | the answer is the last report since the last poison of the calls that reached what is active, if that is of the guard's session; in turn, of the innermost capture |
| DependencyWalks.NormalIds | scripts/release/package_consumers.py:61-77 | the closure is exactly what is reachable over normal and build dependencies; an error if and only if the root is ambiguous or something reachable is missing |
| DependencyWalks.Walk | scripts/release/package_binaries.py:212-220 | the worklist itself, shared by both package walks |
| NodeScopes.Scopes | scripts/release/package_notices.py:235-253 | the labels are those of the packages met, once per package and scope; an error if and only if one met, or a dependency of one, is missing |
| NodeScopes.ScopesOf | scripts/release/package_notices.py:229-254 | the same from a root found by name |
| NodeScopes.ScopeIsPathScope | scripts/release/package_notices.py:246-252 | a package is met in a scope if and only if some path makes it dev by a dev edge, else build by a build edge, else runtime |
| NodeScopes.LabelsArePathScopes | scripts/release/package_notices.py:242-252 | an identity is labelled with a scope if and only if a package of it ends such a path |
| NodeScopes.ClosureCheckPasses | scripts/release/package_notices.py:480-483 | the notices' closure equality holds on all metadata both walks accept |

## Left out

- Lifecycle: lock poisoning, panics, shutdown deadlines, waiter reservations, session fences and the return values callers see; the completion counter does not overflow.
- Lifecycle: ordinary calls are an open, a close of any number of sessions, a mint, a find and a destroy; other admitted calls take and leave the read lock like them and touch neither the tracker nor the session and object tables.
- Lifecycle: the mechanism cache, which calls of one session replace among themselves; the table updates of a close are one step.
- LifecycleTheorems.ReleaseExcludesService: takes the five loads of the decision as one; the destructor that makes them has the backend to itself.
- Lifecycle: updates of separate atomics are single steps of one shared record, in the source's order; weaker memory orders are not modelled, since the source uses none.
- Audit: SHA-256, Ed25519, JSON, hex and file errors; a line is blank, unreadable or a record.
- Audit: a line torn by a crash. Appends are whole lines, and recovery from an anchor that does not parse is not modelled.
- AuditSink.WriterState.WriteRecordRaw: asks for a number left below the 64-bit limit; the byte and record counters are unbounded.
- AuditSink.WriterState.MaybeWriteGapSentinel: asks for a number left, as the record it may write does.
- AuditSink.WriterState.WriteRecord: asks for two numbers left, one for a sentinel.
- AuditTaskLoop.WriterTask: asks for numbers left for all messages; failed writes and the wedged flush of hook builds are not modelled.
- AuditSink.WriterState.Open: says nothing of directories no writer leaves behind, such as one whose rotated files were removed by hand.
- Audit: failed writes. A record whose write fails is skipped by the chain, which the verifier then reports as a gap.
- AuditReplay.StreamReplay.Push: the record count is unbounded.
- Audit: the sending side of the channel and its drop counter; the task takes any messages and any readings of counter and clock.
- AuditReplayTheorems.ReportOfOrderedLog: asks for a log in order; `RunsCompleteExactly`, `RunsAscendExactly` and `GapsExactly` say what the lists are otherwise.
- Schema: for wiping, message names and the field names within a message are distinct, as the protobuf compiler requires; the build script does not check it.
- WipeOnDrop.DropWipes: a dropped buffer is modelled as its bytes; copies the allocator or the optimizer may leave are not.
- Schema: the cross-checks against generated code, the redacted `Debug` list and the manifest reader.
- Schema: reading files into lines, and field numbers or indices beyond 32 bits in the emitted text.
- ObjectCleanup: modelled on values, one step per queue access, since drops of many guards interleave; the mutex itself is not modelled.
- Release scripts: everything but the three walks.
