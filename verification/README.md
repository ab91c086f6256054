# Rostfrei core, verified

A Dafny model of the event-sourced command runtime of Rostfrei: the durable command protocol, the
in-memory event store it runs on, the per-attempt event journal, the encodings of proposals,
outcomes, JSON documents and names, and the two algorithms beside them, cycle finding in causal
graphs and resumable application of fixtures.

`dafny verify dfyconfig.toml` checks the whole project.

## How the model is built

- **Store.** `MemoryStore` holds the classes: `Shared` has the redundant indexes the clones of a
  store share, `Handle` has the limits each clone carries, and every method is one locked section.
  Each method is proved equal to a function of the state in `Store`; invariants and runs
  (`StoreInvariant`, `StoreSteps`, `StoreRuns`) are about those functions, and `StoreAnswers` says in
  terms of the streams when the store records and what it answers.
- **Command protocol.** `Executor` is a step system: any number of executors interleave with direct
  appends, transactions and expiries, and every step is one locked section or a local one. A handler
  is an arbitrary deterministic strategy: what it has been shown so far decides the next load or the
  decision. `ExecutorRuns` holds the guarantees over every schedule, `ExecutorAnswers` says field by
  field who succeeds with what, `ExecutorWork` bounds the work and proves that executions end. `ExecutorLoop` is the same loop as a method on a store handle.
- **Journal.** `Journal` has every move a handler can make with its instances, interruptions included;
  `Instances` has the objects themselves, proved against those moves.
- **Fixtures.** `Fixtures` validates, `FixturePlan` plans, `FixtureRuns` interleaves any number of
  appliers (a crash is an applier that gets no more turns, a restart is one that starts late), and
  `FixtureApply` is the uninterrupted call from validation to report.
- **Text** is a sequence of UTF-8 code units. SHA-256 (section 6.2 of FIPS 180-4), the serializers of
  records and the character classes are arbitrary functions in a `Primitives` record, so every result
  holds for all of them. Where parsing has to undo writing, `Lawful` and `LawfulRevisions` say so.
  Freedom from collisions is assumed only where it is named (`CollisionFree`): different content under
  one key, detail bytes, revisions, and fixtures. The store invariants do not need it, because the
  store refuses identities it already knows.
- **Integers** are unbounded; the 16-, 32- and 64-bit limits of the source are written out where it
  checks them.

Three observations about the code that the proofs settle:

- A load that the codec refuses is not enlisted as a guard. Runs are serializable all the same:
  decoding is decided event by event and streams only grow, so a refusal cannot become outdated.
- Building a delivery name or an address from valid components never fails: the 256-byte checks in
  `build_delivery_name` and `build_address` cannot be reached (`Names.BuildAccepts`,
  `Names.BuildAddressAccepts`).
- `validate_integrity` and `validate_proposal` cannot refuse a receipt the store has just built, so
  preparing a marker fails only when the detail header outgrows its 32-bit length field.

## Model

| member | source | states |
|---|---|---|
| `ExecutorRuns.EveryRunIsSerial` | crates/rostfrei-core/src/executor.rs:734-812 | At every moment of every schedule the store is reached from the empty one by the schedule's own direct mutations, in order, and whole commands executed one at a time, each key at most once |
| `ExecutorRuns.EveryMoveIsSerial` | crates/rostfrei-core/src/executor.rs:752-811 | Each turn of an executor that changes the store is a single-step execution of its own command with exactly what its handler was shown: all loads, the decision and the commit against one state |
| `ExecutorSteps.NewCommitIsAtomic` | crates/rostfrei-core/src/memory.rs:773-805 | When a commit newly records, everything the handler was shown, at whatever moments, is what it would be shown by the store at the commit |
| `ExecutorSteps.LoadedIsCurrent` | crates/rostfrei-core/src/executor.rs:218-290 | When a commit newly records, each loaded history equals the stream's history at that instant |
| `ExecutorRuns.AtomicEffect` | crates/rostfrei-core/src/executor.rs:820-877 | An atomic execution appends to each participant exactly the recorded batch of what was raised on it, and leaves every other stream as it was |
| `ExecutorRuns.AcceptanceIsRecorded` | crates/rostfrei-core/src/memory.rs:633-655 | New records do happen: a valid command that loads nothing and accepts is newly recorded on an empty store |
| `ExecutorRuns.SingleWinner` | crates/rostfrei-core/src/memory.rs:395-528 | In every run a (context, operation) key becomes recorded at most once |
| `ExecutorRuns.Agreement` | crates/rostfrei-core/src/executor.rs:890-956 | Executors that succeed for one key, at any two moments, return the same marker; it is the recorded one and its identity matches the command |
| `ExecutorAnswers.SuccessesRunOneCommand` | crates/rostfrei-core/src/outcome.rs:286-315 | Two executors that succeed for one key, at any two moments, have equal fingerprint, correlation, causation, actor and security scope, and equal evidence, creation time apart, wherever the record has evidence |
| `ExecutorAnswers.OnlyTheRecordedCommandSucceeds` | crates/rostfrei-core/src/executor.rs:890-956 | An executor whose metadata differ in any field, evidence included, creation time apart, from those of the execution that recorded the key never finishes successfully |
| `ExecutorAnswers.RecordedKeyAnswers` | crates/rostfrei-core/src/executor.rs:890-956 | Resolving a recorded key, the same command succeeds with the completion that was committed, rejection included, while its details live and as expired or missing afterwards; any other command gets an identity conflict |
| `ExecutorAnswers.ReplayIsTruthful` | crates/rostfrei-core/src/executor.rs:914-976 | A success is marked as a replay exactly if the executor did not record the key itself |
| `ExecutorAnswers.RaisedIsRecorded` | crates/rostfrei-core/src/executor.rs:820-877 | Each participant's stream grows by exactly the raised events in order, with their type, schema and payload, the next versions, derived identities and the command's operation, fingerprint, correlation, causation and actor |
| `ExecutorAnswers.AttemptRecordsExactly` | crates/rostfrei-core/src/memory.rs:716-780 | Under a free key an attempt is recorded exactly when no stream it loaded has moved on, guards included, its events are new to their streams, and it is valid and fits |
| `ExecutorRuns.RecordedNeverReevaluated` | crates/rostfrei-core/src/executor.rs:753-756 | Once a key is recorded, expired or not, no executor begins another handler evaluation for it |
| `ExecutorRuns.ExpiredLookupCompletes` | crates/rostfrei-core/src/memory.rs:554-620 | In every schedule, a lookup that begins after expiry ends at its executor's next turn, however late, with the recorded marker and expired details, or with an identity conflict for a different command; never as missing |
| `ExecutorAnswers.ExpiryTakesEffect` | crates/rostfrei-core/src/memory.rs:665-699 | After a move that expires a record by its key and revision, its slot is expired at every later moment of the schedule |
| `ExecutorAnswers.LookupAfterExpiry` | crates/rostfrei-core/src/memory.rs:554-620 | Every lookup that begins after that move ends, however late, with the recorded marker and expired details, or with an identity conflict |
| `ExecutorWork.EvaluationsBounded` | crates/rostfrei-core/src/executor.rs:752-811 | For every handler and every schedule, an execution with retry bound m evaluates its handler at most m + 1 times |
| `ExecutorWork.BoundedWork` | crates/rostfrei-core/src/executor.rs:752-811 | For every handler and every schedule, the steps of an execution other than loads number at most 4 * (m + 1) + 3 |
| `ExecutorWork.FinishedUnlessLoading` | crates/rostfrei-core/src/executor.rs:752-811 | So an execution that had 4 * (m + 1) + 3 turns beside its loads is finished, for every handler |
| `ExecutorWork.EveryExecutionEnds` | crates/rostfrei-core/src/executor.rs:752-811 | With a handler that ends, however many loads that takes, an execution that gets a turn again and again is finished at some moment of every endless schedule |
| `ExecutorWork.EndingNeedsNoBound` | crates/rostfrei-core/src/executor.rs:85-105 | A handler that loads as many streams as the first one has events ends, and no number of responses bounds it |
| `ExecutorWork.DecidingHalts` | crates/rostfrei-core/src/executor.rs:85-105 | A handler with a uniform bound on its responses ends |
| `ExecutorWork.EventuallyFinished` | crates/rostfrei-core/src/executor.rs:752-811 | If the handler decides within n responses, (m + 1) * (n + 4) + 3 own steps finish the execution |
| `ExecutorWork.RetryIsGenuine` | crates/rostfrei-core/src/conflict_retry.rs:52-60 | In every schedule, a retry happens only on a version conflict, with a loaded stream that really moved on, no record under the key and the bound not used up; never on an identity conflict |
| `ExecutorAnswers.ReconcilingAnswers` | crates/rostfrei-core/src/executor.rs:771-811 | At a reconciling turn a recorded winner is resolved as a replay; without one a conflict with the bound not used up does retry, and everything else ends with its error |
| `ExecutorAnswers.LookingUpAnswers` | crates/rostfrei-core/src/executor.rs:752-760 | A lookup resolves a recorded winner as a replay and otherwise begins exactly one evaluation with nothing loaded |
| `ExecutorAnswers.ContextRequired` | crates/rostfrei-core/src/executor.rs:988-994 | A command outside any bounded context is refused before its handler is called |
| `ExecutorSteps.ConflictIsGenuine` | crates/rostfrei-core/src/memory.rs:782-797 | A conflict answer means that some loaded stream is longer than what was loaded |
| `ExecutorRuns.ReachableSound` | crates/rostfrei-core/src/executor.rs:734-812 | Every reachable system satisfies the store invariant and each executor's invariant |
| `ExecutorRuns.StoreGrows` | crates/rostfrei-core/src/memory.rs:69-77 | Between any two moments streams only grow, records never change, and slots only expire |
| `ExecutorSteps.ExecutorStepKeeps` | crates/rostfrei-core/src/executor.rs:734-877 | Each step of an executor keeps the store invariant and its own invariant |
| `ExecutorLoop.Execute` | crates/rostfrei-core/src/executor.rs:734-812 | With a handler that ends, the loop on a store handle ends and does exactly what its steps do one after the other |
| `ExecutorLoop.FinishedStays` | crates/rostfrei-core/src/executor.rs:734-812 | Once finished, further steps change nothing, so the end of an execution is determined |
| `ExecutorLoop.Step` | crates/rostfrei-core/src/executor.rs:752-811 | One iteration stage on the shared state is one step of the step system |
| `ExecutorLoop.LoadStream` | crates/rostfrei-core/src/executor.rs:218-290 | Loading refuses a foreign context, a repeated stream, a corrupt history and an undecodable event, in this order, and otherwise returns the history |
| `ExecutorLoop.UndisturbedOnce` | crates/rostfrei-core/src/executor.rs:752-811 | Without interference an execution evaluates its handler at most once, and what it returns is recorded |
| `MemoryStore.Handle.Append` | crates/rostfrei-core/src/memory.rs:223-349 | The whole new state and answer of one direct append, with nothing changed on any error |
| `MemoryStore.Handle.AppendTransaction` | crates/rostfrei-core/src/memory.rs:395-528 | The whole new state and answer of one transaction, with nothing changed on any error |
| `MemoryStore.Handle.ExpireDetails` | crates/rostfrei-core/src/memory.rs:665-699 | Expiry withdraws the bytes of exactly the addressed slot, or reports why not |
| `MemoryStore.ValidateTransaction` | crates/rostfrei-core/src/memory.rs:716-780 | The first refusal in the order of the checks: participants' identities first, then all expected versions |
| `MemoryStore.ItemLimit` | crates/rostfrei-core/src/store.rs:242-280 | Counts the domain events and decides whether events, guards and the outcome fit into one transaction |
| `Records.RecordBatch` | crates/rostfrei-core/src/memory.rs:807-834 | Recording yields the batch's events at the versions after the base, and fails exactly when the version space is exhausted |
| `StoreSteps.AppendKeeps` | crates/rostfrei-core/src/memory.rs:223-349 | A direct append keeps the store invariant and only adds |
| `StoreSteps.TransactKeeps` | crates/rostfrei-core/src/memory.rs:395-528 | A transaction keeps the store invariant and only adds |
| `StoreSteps.ExpireKeeps` | crates/rostfrei-core/src/memory.rs:665-699 | Expiry keeps the store invariant and moves a slot only from active to expired |
| `StoreSteps.AdmittedReceiptMatches` | crates/rostfrei-core/src/memory.rs:433-494 | The receipt of every admitted transaction passes both receipt validators |
| `StoreSteps.PreparationFailsOnlyOnEncoding` | crates/rostfrei-core/src/outcome.rs:193-250 | Preparing the marker of an admitted transaction fails exactly when the detail header is longer than 32 bits can say |
| `StoreAnswers.AppendRecordsExactly` | crates/rostfrei-core/src/memory.rs:223-349 | A direct append records exactly a batch that is derived, shares no identity with its stream, expects the stream's length and fits; its events then stand after what was there, and otherwise nothing changes |
| `StoreAnswers.AppendConflictIsStale` | crates/rostfrei-core/src/memory.rs:782-797 | A version conflict means that the expectation is not the stream's length |
| `StoreAnswers.PermanentDirectAnswer` | crates/rostfrei-core/src/memory.rs:232-244 | After a recorded direct append and any further operations, its operation identity answers the equal batch with the original events as a replay and any other batch with an identity conflict, and nothing changes |
| `StoreAnswers.TransactionOperationConflicts` | crates/rostfrei-core/src/memory.rs:232-244 | An operation that a recorded transaction entered into a stream always conflicts with a direct append |
| `StoreAnswers.TransactRecordsExactly` | crates/rostfrei-core/src/memory.rs:395-528 | A transaction is newly recorded exactly when its key is free, its participants are distinct, derived, new and current, guards included, it is well attributed and within its item limit, and it and its detail header fit |
| `StoreAnswers.CommitRecordsExactly` | crates/rostfrei-core/src/memory.rs:633-655 | The same for the commit of a command, which also needs a valid completion |
| `StoreAnswers.RecordedWithinLimits` | crates/rostfrei-core/src/memory.rs:79-87 | A handle never records events or outcomes beyond its own limits |
| `StoreAnswers.ExpiryExact` | crates/rostfrei-core/src/memory.rs:665-699 | Expiry succeeds exactly for a recorded key of this authority with its own revision; then that slot is expired and every other slot, stream, index and record is as before; otherwise nothing changes, and the error says which part was wrong |
| `StoreRuns.EveryReachableStoreSound` | crates/rostfrei-core/src/memory.rs:69-77 | Every store reachable by permitted operations satisfies the invariant: valid histories, exact indexes, intact receipts, matching slots |
| `StoreRuns.IndexesAreComputed` | crates/rostfrei-core/src/memory.rs:496-525 | Operation, commit and event-id indexes and the event count are exactly those computed from the streams |
| `StoreRuns.RecordedExactlyOnce` | crates/rostfrei-core/src/memory.rs:496-525 | Every event of every recorded transaction stands in its stream at exactly one place |
| `StoreRuns.PermanentReplay` | crates/rostfrei-core/src/memory.rs:399-413 | After any further operations, resubmitting equal content, with whatever expected versions and limits, returns the original record and changes nothing |
| `StoreRuns.PermanentConflict` | crates/rostfrei-core/src/store.rs:535-543 | After any further operations, different content under the key is an identity conflict and changes nothing, unless the hash collides |
| `StoreRuns.SlotsMatchTransactions` | crates/rostfrei-core/src/memory.rs:554-590 | Scoped transactions and detail slots correspond one to one |
| `StoreRuns.ExpiryIsFinal` | crates/rostfrei-core/src/memory.rs:665-699 | Through any run an expired slot stays expired and its record stays recorded |
| `StoreInvariant.RecordIntoKeepsIndexed` | crates/rostfrei-core/src/memory.rs:325-346 | Entering one admissible, derived and new batch keeps every index exact and moves the event total by its length |
| `History.ValidateHistory` | crates/rostfrei-core/src/executor.rs:1077-1163 | The loop validator decides local validity: derived identities, versions from 1, fresh identities, contiguous commits |
| `History.ValidIsHistory` | crates/rostfrei-core/src/executor.rs:1077-1163 | It accepts exactly the concatenations of complete, distinct commits with derived identities and consistent operations |
| `History.RecordingKeepsValid` | crates/rostfrei-core/src/memory.rs:807-834 | Recording a derived batch with new identities on a valid history gives a valid history |
| `Receipts.ValidateIntegrity` | crates/rostfrei-core/src/receipt_validation.rs:12-58 | The nested loops decide receipt integrity: distinct streams, contiguous versions, derived identities, shared metadata |
| `Receipts.ValidateProposal` | crates/rostfrei-core/src/receipt_validation.rs:60-125 | The loops decide that a receipt is an intact record of exactly the proposal |
| `Receipts.BuiltReceiptMatches` | crates/rostfrei-core/src/memory.rs:433-494 | A receipt built from proper participants and fitting bases is accepted by both validators |
| `Receipts.ProposalValidatedExactly` | crates/rostfrei-core/src/receipt_validation.rs:60-125 | A receipt validates against a proposal exactly if it is the one that recording the proposal, proper and within its limits, at fitting bases builds |
| `Receipts.MatchingIsBuilt` | crates/rostfrei-core/src/receipt_validation.rs:12-125 | Whatever validates is that receipt, event by event, and shows the proposal to be proper |
| `Identity.FrameInjective` | crates/rostfrei-core/src/identity.rs:355-365 | Length-framed hashing loses nothing: the byte stream determines the parts |
| `Identity.CommitIdsDiffer` | crates/rostfrei-core/src/identity.rs:338-345 | Without a collision, equal commit identities mean equal stream and operation |
| `Identity.EventIdsDiffer` | crates/rostfrei-core/src/identity.rs:347-353 | Without a collision, equal event identities mean equal commit and ordinal |
| `Proposal.Of` | crates/rostfrei-core/src/proposal.rs:35-137 | Feeding the hasher part by part gives the digest of the framed parts; it fails exactly when batch actors disagree |
| `Proposal.PartsInjective` | crates/rostfrei-core/src/proposal.rs:35-137 | Two properly attributed transactions feed the same parts exactly when they are equal apart from expected versions, across both framings |
| `Proposal.DigestInjective` | crates/rostfrei-core/src/proposal.rs:35-137 | The same for the framed bytes, and for the digest unless the hash collides |
| `Proposal.SameContentSameDigest` | crates/rostfrei-core/src/proposal.rs:35-137 | Content equal apart from expected versions has the same digest, attribution and totals, without any law on the serializers |
| `Outcome.DetailsRoundTrip` | crates/rostfrei-core/src/outcome.rs:614-698 | For everything `prepare` accepts, decoding the detail bytes against the marker's reference returns the original completion with its split-out rejection bytes |
| `Outcome.OnlyPreparedBytesDecode` | crates/rostfrei-core/src/outcome.rs:641-698 | Against a marker's reference the prepared bytes decode to the original completion, and without a collision nothing else decodes |
| `Outcome.BytesServeOneReference` | crates/rostfrei-core/src/outcome.rs:641-698 | Bytes that decode against two references show that the references are the same: details of one outcome never serve another |
| `Outcome.ManifestRoundTrip` | crates/rostfrei-core/src/outcome.rs:98-191 | Restoring an encoded manifest with the same integrity receipt returns the same marker |
| `Outcome.RestoredIsEncoded` | crates/rostfrei-core/src/outcome.rs:125-191 | Whatever restores is the manifest that its marker encodes, under that key and receipt |
| `Outcome.PreparedIsSound` | crates/rostfrei-core/src/outcome.rs:193-250 | A prepared marker is bound to its receipt, in one format, without timestamp, without events if rejected, and named by its revision |
| `Outcome.RestoresExactly` | crates/rostfrei-core/src/outcome.rs:125-191 | A manifest restores to a marker exactly if the marker is sound in that sense, belongs to the key and receipt, and the manifest is its own |
| `Revisions.RevisionDetermines` | crates/rostfrei-core/src/outcome.rs:427-454 | Without a collision, two markers have the same revision exactly when reference, proposal, evidence and integrity receipt are all equal |
| `Revisions.RowsDetermineReceipt` | crates/rostfrei-core/src/outcome.rs:359-425 | The digested rows determine an intact receipt, although they leave out most of each event and keep its payload only as a digest |
| `Revisions.PreparedIsRevised` | crates/rostfrei-core/src/outcome.rs:193-250 | What `prepare` yields carries its own revision and an intact receipt |
| `Journal.ParticipantTracker.Collect` | crates/rostfrei-core/src/executor.rs:331-386 | Takes the finalization once, drains the journal and returns what reading it says |
| `Journal.ParticipantTracker.ReadEntries` | crates/rostfrei-core/src/executor.rs:340-362 | The loop over the entries yields the first error, an interruption, a wrong count or the events |
| `Journal.CollectExact` | crates/rostfrei-core/src/executor.rs:147-159 | For every sequence of loads, raises, interruptions, swaps, replacements and drops, `collect` succeeds exactly if the handle was dropped holding its own instance, no raise on it was interrupted and every event encoded; it then returns the encodings of its uncommitted events in order |
| `Journal.DiscardExact` | crates/rostfrei-core/src/executor.rs:371-386 | For every sequence of moves, discarding succeeds exactly if the handle was dropped holding its own instance |
| `Journal.ParticipantTracker.Discard` | crates/rostfrei-core/src/executor.rs:371-386 | Takes the finalization once and leaves the journal alone |
| `Journal.RaisedFaithful` | crates/rostfrei-core/src/aggregate.rs:107-123 | A raise keeps the journal a faithful record of the instance, and an interrupted one breaks it |
| `Journal.BrokenStays` | crates/rostfrei-core/src/executor.rs:340-362 | No later raise repairs a broken journal |
| `Journal.RunSound` | crates/rostfrei-core/src/executor.rs:218-290 | At every moment tokens are unique, each finalization says what its handle held when dropped, and each journal is faithful or broken |
| `Instances.AggregateInstance.constructor` | crates/rostfrei-core/src/aggregate.rs:74-81 | Rehydration applies the events in order to the initial state, with nothing uncommitted and no observer |
| `Instances.AggregateInstance.Raise` | crates/rostfrei-core/src/aggregate.rs:107-123 | Raising changes the instance as the journal's complete raise does, and its observers write exactly the start and the encoding of that ordinal to its tracker |
| `Instances.LoadedAggregate.Drop` | crates/rostfrei-core/src/executor.rs:147-159 | Dropping records the number of events if the handle holds the instance loaded for it, and lost tracking otherwise |
| `Instances.Load` | crates/rostfrei-core/src/executor.rs:234-289 | Decoding and enlisting fail exactly when an event does not decode, and otherwise give a tracked instance with the rehydrated state and an empty journal |
| `Instances.Attempt` | crates/rostfrei-core/src/executor.rs:331-386 | From load over raises and drop to collection: the encodings of the raised events in order exactly if all encode, and the loaded state with them applied |
| `Aggregates.AppendedState` | crates/rostfrei-core/src/aggregate.rs:74-81 | Appending encodings and reading the stream back is the same as applying the events in memory |
| `Aggregates.PersistedIsInMemory` | crates/rostfrei-core/src/executor.rs:826-837 | Right after an accepted append, rehydrating a participant's stream yields exactly the state of the instance the handler raised its events on |
| `Cycles.FindCycles` | crates/rostfrei-messaging-core/src/message_series.rs:247-297 | Returns exactly the cycles of the graph, each once, from its smallest index, strictly ordered by it; terminates on every parent array |
| `Cycles.Explore` | crates/rostfrei-messaging-core/src/message_series.rs:254-293 | One path from an unvisited node keeps the collection exact for the visited nodes |
| `Cycles.CanonicalUnique` | crates/rostfrei-messaging-core/src/message_series.rs:266-279 | Cycles written from their smallest index that share a member are the same sequence |
| `Cycles.OnCycleIffReturns` | crates/rostfrei-messaging-core/src/message_series.rs:247-297 | The reported cycles cover exactly the nodes whose chain of parents comes back to them: no tail node |
| `Cycles.AcyclicIffChainsEnd` | crates/rostfrei-messaging-core/src/message_series.rs:247-297 | There is no cycle exactly when every chain of parents ends |
| `MessageSeries.Series.Insert` | crates/rostfrei-messaging-core/src/message_series.rs:100-123 | An exact duplicate is accepted without change, a changed one is an identity conflict, a new one is appended unless the series is full |
| `MessageSeries.TryFromNodes` | crates/rostfrei-messaging-core/src/message_series.rs:89-98 | Succeeds exactly when no identity means two messages and the distinct messages fit; keeps first occurrences in order |
| `MessageSeries.TopologyIssues` | crates/rostfrei-messaging-core/src/message_series.rs:162-191 | Edge issues in child order, then every cycle of the graph once in order |
| `MessageSeries.UnresolvedExactly` | crates/rostfrei-messaging-core/src/message_series.rs:166-177 | A parent is reported as unresolved exactly if a node names a cause that no node has |
| `MessageSeries.CrossingExactly` | crates/rostfrei-messaging-core/src/message_series.rs:178-183 | A crossing edge is reported exactly if a node and the node it names as its cause have different correlations |
| `MessageSeries.CyclesExactly` | crates/rostfrei-messaging-core/src/message_series.rs:184-191 | The reported cycles are exactly the sequences of messages, from the earliest on, that name each other as causes and come back to the first |
| `MessageSeries.EdgeIssuesOrdered` | crates/rostfrei-messaging-core/src/message_series.rs:160-186 | Edge issues come strictly in the order of their children |
| `MessageSeries.AllCyclesUnique` | crates/rostfrei-messaging-core/src/message_series.rs:160-191 | There is only one ordered list of all cycles, so the report is determined |
| `MessageSeries.EmptyReportMeansSound` | crates/rostfrei-messaging-core/src/message_series.rs:162-191 | Nothing is reported exactly when every cause resolves within its correlation and every chain of causes ends at a root |
| `CanonicalJson.WriteCanonical` | crates/rostfrei-fixtures/src/lib.rs:890-930 | Appends exactly the canonical bytes of the value to the buffer |
| `CanonicalJson.CanonicalBytes` | crates/rostfrei-fixtures/src/lib.rs:884-930 | Two JSON values (sections 3 to 7 of RFC 8259) get the same bytes exactly when they are equal up to member order at every depth |
| `CanonicalJson.ValuesSeparable` | crates/rostfrei-fixtures/src/lib.rs:890-930 | No value's text can be mistaken for the beginning of another's |
| `JsonReading.CanonicalReadsBack` | crates/rostfrei-fixtures/src/lib.rs:884-930 | An independent reader of JSON text reads canonical bytes back to the value with its members in name order, which is the same value up to member order, with nothing left over |
| `JsonReading.ValueReads` | crates/rostfrei-fixtures/src/lib.rs:890-930 | Inside any surrounding text, reading a written value stops exactly where writing stopped |
| `Fixtures.Validate` | crates/rostfrei-fixtures/src/lib.rs:249-262 | Accepts exactly the fixtures of the supported schema with sound topology, parents first, contiguous stream versions and admissible messages |
| `Fixtures.ValidateTopology` | crates/rostfrei-fixtures/src/lib.rs:320-362 | Refuses exactly the series with an unresolved, crossing or cyclic cause |
| `Fixtures.ValidateParentOrder` | crates/rostfrei-fixtures/src/lib.rs:364-387 | Refuses exactly the series with a message before its cause |
| `Fixtures.ValidateStreamVersions` | crates/rostfrei-fixtures/src/lib.rs:389-413 | Accepts exactly the series in which each message has the next version of its stream |
| `Fixtures.DocumentsIdentify` | crates/rostfrei-fixtures/src/lib.rs:866-882 | Fingerprint documents are equal byte for byte exactly when fixture identity, revision and message are equal up to member order inside the payload |
| `FixturePlan.BuildPlan` | crates/rostfrei-fixtures/src/lib.rs:784-864 | Yields the plan, and fails exactly when a cause has no earlier message or an envelope is refused |
| `FixturePlan.PlannedSays` | crates/rostfrei-fixtures/src/lib.rs:810-856 | Planned event i carries its message's name, schema version, stream, stream version, correlation and canonical payload, in a batch of that one event under the operation named by the message's document |
| `FixturePlan.PlannedPayloads` | crates/rostfrei-fixtures/src/lib.rs:815-823 | Planned payloads are equal exactly when the messages' payloads are equal up to member order |
| `FixturePlan.ValidatedPlans` | crates/rostfrei-fixtures/src/lib.rs:784-808 | A validated fixture never misses a parent identity and passes the envelope's own checks |
| `FixturePlan.PlannedCauses` | crates/rostfrei-fixtures/src/lib.rs:789-823 | Each planned cause is an earlier planned event of the same correlation; only roots have none |
| `FixturePlan.PlannedStreamValid` | crates/rostfrei-fixtures/src/lib.rs:825-864 | The planned events of each stream form a valid history, at every moment of planning |
| `FixturePlan.ValidatedPlanIsGood` | crates/rostfrei-fixtures/src/lib.rs:784-864 | Validation and a hash without collisions on the fixture make all planned identities distinct, derived and in place |
| `FixtureRuns.ConcurrentAppliersAgree` | crates/rostfrei-fixtures/src/lib.rs:508-616 | In every interleaving of appliers over streams that do not diverge from the plan, an applier fails only by exhausting its handle's capacity; a finished one reports applied + reused = planned events, and each target stream then equals the plan, or is what it was if it already contained it |
| `FixtureRuns.AppliedIsNewlyRecorded` | crates/rostfrei-fixtures/src/lib.rs:588-606 | In every interleaving the reported number of applied events is the number the applier newly recorded |
| `FixtureRuns.ValidatedFixtureApplies` | crates/rostfrei-fixtures/src/lib.rs:508-616 | The same for every validated fixture, with its message count |
| `FixtureRuns.AppendSound` | crates/rostfrei-core/src/memory.rs:223-349 | An applier's append replays the planned event, records it in its place or runs out of capacity; it never conflicts |
| `FixtureRuns.ReportAddsUp` | crates/rostfrei-fixtures/src/lib.rs:566-606 | Skipped entries are exactly those counted in the reused prefixes |
| `FixtureRuns.AppliersFinish` | crates/rostfrei-fixtures/src/lib.rs:550-606 | An applier that keeps getting turns finishes after a bounded number of them |
| `FixtureApply.Apply` | crates/rostfrei-fixtures/src/lib.rs:508-616 | The whole call: an invalid fixture, a missing codec and an undecodable event are refused in this order before anything is written, planning never fails, and then the call does what its turns do with the streams in their order |
| `FixtureApply.ApplyPlan` | crates/rostfrei-fixtures/src/lib.rs:550-606 | Preflight and appends on a store handle do exactly what an applier's turns do one after the other |
| `FixtureApply.AppliedFixtureSound` | crates/rostfrei-fixtures/src/lib.rs:508-616 | A call over streams that do not diverge ends with every message applied or reused, the streams at their goal and each message standing at its version with everything it says, or out of capacity |
| `FixtureApply.PreflightAll` | crates/rostfrei-fixtures/src/lib.rs:550-564 | Ends in a conflicting history exactly when some stream and its plan are not one a beginning of the other, and otherwise has the prefixes of the turns |
| `FixtureApply.ConflictExactlyOnDivergence` | crates/rostfrei-fixtures/src/lib.rs:550-564 | Without any assumption on the store, a call ends in a conflicting history exactly when some target stream diverges from its plan, and then has written nothing |
| `FixtureApply.AloneSound` | crates/rostfrei-fixtures/src/lib.rs:508-616 | The uninterrupted call ends with a report that adds up and complete streams, or out of capacity |
| `Names.DeliveryRoundTrip` | crates/rostfrei-messaging-core/src/consume.rs:607-713 | Names built from valid components parse back, and accessors return application, scope and context, whatever is named "test" |
| `Names.AcceptedDeliveryIsBuilt` | crates/rostfrei-messaging-core/src/consume.rs:633-692 | Every accepted delivery name is the built name of valid components |
| `Names.BuildAccepts` | crates/rostfrei-messaging-core/src/consume.rs:607-631 | Building succeeds exactly on valid components; the length bound never decides |
| `Names.DeliveryFormat` | crates/rostfrei-messaging-core/src/consume.rs:615-621 | The convention of delivery names, written out for both scopes |
| `Names.AddressRoundTrip` | crates/rostfrei-messaging-core/src/address.rs:396-555 | Addresses built from valid components parse back to their kind, and accessors return application, scope, context and name |
| `Names.AcceptedAddressIsBuilt` | crates/rostfrei-messaging-core/src/address.rs:436-499 | Every accepted address is the built address of valid components |
| `Names.BuildAddressAccepts` | crates/rostfrei-messaging-core/src/address.rs:396-419 | Building succeeds exactly on valid components; the length bound never decides |
| `Names.AddressFormat` | crates/rostfrei-messaging-core/src/address.rs:403-409 | The convention of addresses, written out for both scopes |
| `Names.ComponentAccepted` | crates/rostfrei-messaging-core/src/scope.rs:195-226 | A scope or address name is accepted exactly if it is 1 to 64 lower-case letters, digits and single inner hyphens |
| `Splitting.SplitJoin` | crates/rostfrei-messaging-core/src/consume.rs:653-660 | Splitting at a separator gives back the joined pieces that end where the separator begins |
| `Splitting.DecimalParses` | crates/rostfrei-messaging-core/src/consume.rs:677-682 | The decimal text of a 32-bit number parses to that number |

## Left out

- NATS adapter, HTTP routers, benchmark and broker processes, proc macros, the structure CLI, studio, website and scripts: process, network and user-interface plumbing.
- SHA-256 itself, the derived serializers and the trimming and control-character classes of identifiers: arbitrary functions with the laws named in `Lawful`.
- Async scheduling, mutex poisoning, retry delays and timeouts: each locked section is one atomic step and a delay is no step.
- Custom conflict-retry policies: only the bounded policy is modelled; `NoConflictRetries` is its behaviour with an always exhausted bound.
- Defaulting of metadata before an execution (correlation from the operation, evidence for an undescribed command): a command starts with its normalized metadata.
- Error messages and the mapping of error kinds to failure origins: only kinds are modelled.
- Separate hot and cold detail readers and archive references: details are resolved from the store's own slots, where an expiry may fall between the lifecycle check and the read.
- Identifier constructors (`OperationId::new`, `MessageId::new` and the like): identities are arbitrary text; the fixture operation identity is always a valid one.
- Codec registries: which aggregate types have a codec and which events it decodes are arbitrary predicates.
- Stream listing, the legacy receipt lookups, simulation, session and `Arc` forwarding: thin variants of modelled paths.
- `FixtureEventSet`, fixture serialization and document parsing: a fixture is its parsed value, and what its types guarantee is `Parsed`.
- `MessageSeries` accessors such as roots and direct children: single filters.
- ExecutorLoop.Execute: asks for a handler that ends (`Halts`), because a handler that loads for ever has no result to state; the bounds of `ExecutorWork` and the serializability results ask for nothing of the handler.
- Instances.AggregateInstance.Raise: a method cannot be interrupted half way; interrupted raises are moves of `Journal`.
- FixturePlan.BuildPlan: takes fingerprints, payload bytes and admission per message as functions; `RenderingOf` gives the source's own.
- Proposal.PartsInjective: part lengths and counts are taken to fit the 64-bit lengths a machine can hold (`Machine`).
- Aggregates.PersistedIsInMemory: the codec law is that decoding undoes encoding in whatever envelope the event is recorded; only codecs with that law are covered.
