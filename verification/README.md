# Tandem indexer: a verified model

The indexer follows a Bitcoin node, reduces every block from the configured INIT on to events and
objects of the Tandem protocol, stores the result in ten MySQL tables and undoes it when the node's best
chain changes. This project models that engine, its store and its driving loop, and three read-side
algorithms, and proves what they promise over every block, every chain and every run.

## How the model is built

- `Bitcoin`, `Tandem`: blocks and transactions, and the vendored protocol package as a record of functions.
  `Lawful` is the contract assumed of the validator, asked only for transactions presented with carriers they
  spend, whose outputs are witness script hashes and whose keys are in order: then it does not throw; each
  carrier gets one event, either one valid operation on it or an exit; several carriers all exit; marker and
  operation agree and count the sequence up by one; a transaction has an event if and only if it is the INIT, has
  a marker candidate left or spends a carrier; without a carrier there is at most one INIT or CREATE; a
  valid INIT has the marker of the configured specification and opens at least 1008 blocks later, for 4,320; a new
  carrier is such an output again. Object keys do not
  collide. That the reducer presents only such carriers is proved. The contract follows
  `src/indexer/block-reducer.ts:376-388`, `site/src/lib/tandem.ts:100-215`,
  `site/src/content/docs/understand/canonical-state.mdx:27-45` and the validator in
  `vendor/bitcoinuniverse-tandem-0.1.0.tgz`. It promises nothing for an INIT that spends a carrier; that this
  cannot happen is proved.
- `Reducer` is the block reducer as a pure function; `WorkingStates` is the reducer as the source writes
  it, a class updated in place, with every method proved equal to the function.
- `Schema` is the tables with their keys and cascades and every statement on them; `IndexerStores` is the
  store class with its loops.
- `Moves`, `Written`, `Invariants`, `History`, `Transactions`, `Blocks`, `Activation`: one object move, and
  what it, an event, a transaction and a block keep. `StateEngine` is the reference machine refined.
- `Appending`, `RollingBack`, `Chain`, `Runs`: writing and undoing blocks, batches and chains. `CanonOf` is
  the state that reducing a chain defines, and the state after one replay exactly when every block's rows fit
  their columns (`Accepted`). `Acceptance` tells that from the blocks' own transactions. `Integrity` is about any
  tables and any rows: keys and foreign keys hold after every accepted write and every rollback.
- `Markers`: how candidates are read, against marker layouts and push encodings. `StoredEvents`, `StoredRows`: what
  the stored rows say of the chain and of the validator's verdicts. `Ledger`, `Balancing`, `StoredLedger`: the event
  rows as a ledger, in which every carrier, chapter and object has its entries.
- `Node`, `Sync`: a node whose best chain is a function of the number of calls made so far, so it may
  change between any two calls, and the service that follows it. `Valid` says that tables and cache are those of
  one replay of the stored chain; every method keeps it when a node call fails. A database transaction may fail, or
  commit and be reported as failed (`Fate`); then the tables are still those of the stored chain, and `Tick` drops
  the cache that no longer agrees with them.
  Evidence about a transaction includes the heights of the outputs it spends, which may differ on two forks.
  Consensus is assumed of the blocks the node serves: hashes commit to blocks and so to parents; linked blocks
  are well formed and their heights count up; from the block of the INIT on neither hashes nor txids repeat.
  Below it they may, as on Bitcoin's own main chain.
- `ChainTheorems`, `Conservation`, `Commitment`, `Contents`: results over chains. `SampleProtocol`, `SampleRun`: a lawful
  protocol, a chain on which an object is founded, moved and moved back, and two that cannot be stored.
- `Regrouping`, `Checksum`, `Distance`, `Alphabets`, `CarrierAddresses`, `AddressVectors`: Bech32 addresses (BIP 173).
- `Keyset`, `BlockEventsCursors`, `BlockEventPages`, `Catalog`: pagination over unchanged tables;
  `PagesAcrossReorgs`, `CatalogSnapshots`: sessions of requests between which everything may change.
- `DerSignatures`: strict DER (BIP 66).

Hashes, txids and object keys are natural numbers, the number their fixed-length hex digits write; an
outpoint is a pair. Failures are values of `Failure`, one per `throw` or rejected statement.

Where the documents and the code disagree the model follows the code. `docs/database.md:52-55` and
`docs/architecture.md:19-21` say that rollback rebuilds derived state and that the INIT can never be rolled
away. The code replays an undo journal, and a plan may go down to one below the INIT height, which deletes the INIT
row by cascade: `SampleRun.InitIsRolledAway` is such a chain, and `Runs.InitSurvivesExactly` says exactly when the
row stays.

Not every block the reducer accepts can be stored. The payload of a lone marker candidate is recorded whole, valid or
not (`src/indexer/block-reducer.ts:392-403`), in a column of 164 hex digits, and a transaction's version goes into a
signed column although Bitcoin's is unsigned (`src/database/migrations/1800000000000-init-tandem.ts:31,52`). With
MySQL's strict mode, the default of the version that `compose.yaml` pins, a value too wide is an error, so the batch
is refused on every later step and the indexer stays below that block. `Appending.BlockIsAccepted` and
`Acceptance.LaterBlockFitsExactly` give the exact condition, `SampleRun.WideRowsAreRefused` two inputs, and
`Converge` and `Stall` what the loop does on either side of it.

The chained root does not commit to everything. `Contents.EqualRootsEqualContents` names what is outside: the marker
payload of an event and the kind of a chapter. (Beyond it, transaction versions, lock times and block times are in no
leaf either.) Collision freedom of the event root is asked only of leaves at ascending places: its tree repeats an odd
last leaf, and the package refuses two events at one place.

The address decoder lower-cases with Unicode rules, so a Kelvin sign in an otherwise upper-case address
counts as `k`; the model does the same (`CarrierAddresses.KelvinIsAccepted`), and the theorems about accepted
addresses hold with it.

The object state root takes the objects as a map. The source passes `state.objects.values()`, whose order differs
between a cached map and one read back by an unordered SELECT; the vendored root sorts its leaves by object key
(`site/src/content/docs/understand/canonical-state.mdx:131`), so that order does not reach it. History
independence rests on this.

## Model
| member | source | states |
|---|---|---|
| `WorkingStates.WorkingState.constructor` | src/indexer/block-reducer.ts:650-662 | From any objects, the working state starts with an empty undo map and lists and with an index that names, for each active carrier, an object that holds it; without shared carriers it is the one exact index. |
| `WorkingStates.WorkingState.Touch` | src/indexer/block-reducer.ts:295-300 | First touch only: the pre-block record, or none for a new key, goes into `undo`; nothing else changes. |
| `WorkingStates.WorkingState.Terminate` | src/indexer/block-reducer.ts:302-322 | The new working state is the specification's: carrier out of the index and into the spent list, object terminal, undo noted once. |
| `WorkingStates.WorkingState.Advance` | src/indexer/block-reducer.ts:324-354 | The new working state is the specification's: old carrier spent, new carrier indexed and listed, sequence set, chapter appended. |
| `WorkingStates.WorkingState.Found` | src/indexer/block-reducer.ts:504-520 | A founded object enters the map, the index, the undo map and the state list. |
| `WorkingStates.RemainingCandidates` | src/indexer/block-reducer.ts:174-189 | The loop over outputs returns exactly the marker candidates left after foreign INIT candidates are removed, in order. |
| `Markers.CandidatesRemain` | src/indexer/block-reducer.ts:174-189 | The candidates are those of the outputs, in order, whose script returns a candidate that is not another population's INIT; number, payload and completeness are the output's. |
| `Markers.DeclaredLengthIsPushed` | src/indexer/block-reducer.ts:191-198 | For each of the four push forms the declared length is the one the push encodes, low byte first. |
| `Markers.AttemptedTypeIsOpcode` | src/indexer/block-reducer.ts:201-207 | The attempted type's number is the opcode, when the format is 1 and the opcode at most 4; else the type is INVALID. |
| `Markers.NamespaceOfLayout` | src/indexer/block-reducer.ts:210-223 | A complete payload laid out as a CREATE, MARK, ROTATE or CLOSE marker has its namespace field for namespace. |
| `Markers.OnlyLayoutsHaveNamespaces` | src/indexer/block-reducer.ts:210-223 | A candidate with a namespace is complete and so laid out, and the namespace is that field. |
| `Markers.InitHeightsExactly` | src/indexer/block-reducer.ts:273-284 | INIT heights are read if and only if exactly one candidate remains and the first output of its number parses as an INIT marker, whose heights they are. |
| `WorkingStates.ApplyValid` | src/indexer/block-reducer.ts:453-604 | One valid operation: the row and the new working state equal the pure specification, an unusable verdict is an error. |
| `WorkingStates.ApplyTerminal` | src/indexer/block-reducer.ts:396-421 | One exit: the row and the new working state equal the pure specification. |
| `WorkingStates.ClassifyTransaction` | src/indexer/block-reducer.ts:360-451 | The in-place classification returns the rows, and leaves the state, of the pure `Classify` on the state before. |
| `WorkingStates.FindInit` | src/indexer/block-reducer.ts:666 | The INIT is found at its position in the block, or not at all. |
| `WorkingStates.ClassifyBlockTransactions` | src/indexer/block-reducer.ts:700-705 | The loop skips irrelevant transactions and equals the fold `ClassifyAll`. |
| `WorkingStates.ReduceBlock` | src/indexer/block-reducer.ts:640-759 | The imperative reducer equals the pure specification on every block whose order is acceptable, from a start state as above, and fails on every other block; without shared carriers it equals `Reduce`. |
| `BlockOrdering.OrderedBlockTransactions` | src/protocol/block-ordering.ts:8-21 | Succeeds exactly when txids are distinct and the coinbase is first and only first; otherwise reports the first violated check. |
| `Moves.EventMakesLegalMove` | src/indexer/block-reducer.ts:390-449 | Every event a lawful verdict yields is one legal move of one object (or none); its row records the move and describes the event: type, validity, reason, namespace, revealed keys, and the commitment of the marker where there is one. |
| `Moves.MoveRefinesEngine` | src/protocol/state-engine.ts:67-121 | The reference machine accepts the recorded transition of every legal move and lands on the same object. |
| `History.TracesCompose` | src/protocol/state-engine.ts:67-121 | Reference runs over two stretches of rows join into one, with sequences counted and terminal objects untouched. |
| `Transactions.ConsumedExactly` | src/indexer/block-reducer.ts:369-374 | The carriers handed to the validator are exactly the active objects whose current outpoint an input spends, each once. |
| `Transactions.ConsumedCarriersStand` | src/indexer/block-reducer.ts:369-388 | Those carriers are what the validator's promise asks for: distinct objects, outpoints the transaction spends, witness script hashes, keys in order. |
| `StoredEvents.ValidatorSeesUnspent` | src/indexer/block-reducer.ts:240-249 | The carriers handed to the validator are exactly the unspent carrier rows the transaction spends, in input order; key, sequence, keys and confirmation height are the row's, so the height is where the carrier was made. |
| `StoredEvents.ValidatorSees` | src/indexer/block-reducer.ts:376-388 | For every transaction of every chain after a valid INIT: the validator is shown the configured binding, the stored INIT's heights, and exactly those carriers. |
| `Transactions.VerdictIsReady` | src/indexer/block-reducer.ts:376-388 | The validator answers for those carriers, and its lawful verdict can be carried out event by event. |
| `Transactions.EventsApply` | src/indexer/block-reducer.ts:390-449 | All events of a transaction apply without a throw, keep the invariant, and their rows trace what they did. |
| `Transactions.ClassifyKeepsInv` | src/indexer/block-reducer.ts:360-451 | Classifying any transaction never throws, in the validator or in the reducer, and keeps the whole block invariant; its rows are one for each validation event, placed, described and shaped by it. |
| `Invariants.MoveKeepsIndex` | src/indexer/block-reducer.ts:302-354 | The outpoint index stays exactly the injective map from current outpoints of active objects to their keys. |
| `Invariants.MoveKeepsUndo` | src/indexer/block-reducer.ts:295-300 | However often an object is touched, `undo` keeps its pre-block record and untouched objects are unchanged. |
| `Invariants.MoveKeepsContiguous` | src/indexer/block-reducer.ts:324-354 | State sequences of an object stay without gaps from 0 up to a bound set by its status. |
| `Invariants.MoveKeepsInv` | src/indexer/block-reducer.ts:302-354 | One legal move keeps all parts of the block invariant: records, index, undo, identity, birth height, carrier rows and chapters, also after rolling the block's rows back. |
| `Blocks.BlockProcessed` | src/indexer/block-reducer.ts:700-705 | No transaction of a block throws; invariant, reference trace and strict event order hold after each one. |
| `Blocks.InitClassifiedAgain` | src/indexer/block-reducer.ts:664-706 | Classified a second time among the block's transactions, the INIT gives the same rows and changes no state. |
| `Activation.InitRecordedOnce` | src/indexer/block-reducer.ts:664-706 | In the activation block a valid INIT has one event row and no object changes, although it is classified twice. |
| `Activation.ActivationBlockReduces` | src/indexer/block-reducer.ts:664-693 | The activation block never throws, records where the INIT confirmed, and leaves no object. |
| `Activation.LaterBlockReduces` | src/indexer/block-reducer.ts:694-706 | Every later block never throws and keeps the invariant; after a failed INIT it yields no event. |
| `ChainTheorems.EngineRefinesReference` | src/protocol/state-engine.ts:67-121 | Over every chain, folding the reference machine over all recorded transitions never refuses one and ends with the engine's objects. |
| `ChainTheorems.ChainTraces` | src/protocol/state-engine.ts:52-121 | The same from any point of a chain on. |
| `ChainTheorems.TerminalPersists` | src/protocol/state-engine.ts:52-65 | An object that is no longer active is left exactly as it is by every appended block. |
| `ChainTheorems.UndoIsExact` | src/indexer/block-reducer.ts:295-300 | Applying a block's undo map to the objects after it gives the objects before it; objects outside the map are unchanged. |
| `ChainTheorems.IndexIsExact` | src/indexer/block-reducer.ts:658-662 | After every transaction of every block, `activeByOutpoint` equals the index built afresh from the objects, and carriers are distinct. |
| `ChainTheorems.ActivationOverRuns` | src/indexer/block-reducer.ts:664-706 | The INIT row exists exactly when a block is stored and is what the loop carries; after a failed INIT there is no object and no later event. |
| `StoredRows.InitIsStored` | src/indexer/block-reducer.ts:664-693 | The stored INIT row names the first block; it is valid, and has the reason, exactly as the validator's one event about the INIT; its heights are those of the INIT's marker, 4,320 apart when valid. |
| `StoredRows.EventsAreVerdicts` | src/indexer/block-reducer.ts:390-449 | Every stored event is made, field by field, from what the validator said of the transaction at its place, and all it said of the chain's transactions is stored; after a failed INIT, of the INIT alone. |
| `StoredRows.CommitmentsTell` | src/indexer/block-reducer.ts:480-600 | Over the stored tables: an INIT event's commitment is the specification hash, a MARK's and a CLOSE's are those of their transaction's marker, and every other event has none. |
| `StoredRows.BlocksAreStored` | src/indexer/indexer.store.ts:82-96 | Each block of the chain has its row: hash, parent, time, the number of its stored events, and the roots of its checkpoint. |
| `StoredRows.TransactionsAreStored` | src/indexer/indexer.store.ts:111-119 | A transaction of the chain has a row if and only if it has a stored event; the row repeats it, its lock time as 32 unsigned bits. |
| `StoredLedger.CarriersAreBooked` | src/indexer/indexer.store.ts:154-173 | Each carrier row is made by exactly one stored event, with its object, sequence, keys and height, and each event with a successor makes one; each spent one is spent by exactly one event, at its height and in its transaction. |
| `StoredLedger.ChaptersAreMarks` | src/indexer/indexer.store.ts:174-187 | Each chapter is exactly one stored MARK of its object and sequence, in its transaction and block and with its commitment, and each stored MARK has its chapter. |
| `StoredLedger.ChaptersAreOfMarkers` | src/indexer/block-reducer.ts:568-573 | A stored chapter has the kind and the commitment of the marker in its MARK's transaction. |
| `StoredLedger.ObjectsAreBooked` | src/indexer/block-reducer.ts:497-532 | Each object row was founded by exactly one stored CREATE, at its height, and is founding exactly inside the stored INIT's window; each terminal one was ended by exactly one event, which names its status and terminal transaction. |
| `Appending.BlockIsAccepted` | src/indexer/indexer.store.ts:81-202 | A reduced block is written to the closed form `AfterBlock` if and only if each event's marker payload has at most 82 bytes and each transaction row's version is a signed 32-bit number; else a column refuses it. No primary, unique or foreign key ever rejects an insert, in `writeBlock`'s order. |
| `Appending.TxRowsOrdered` | src/indexer/block-reducer.ts:738-746 | Transaction rows are strictly ordered by index and cover every event's transaction. |
| `Appending.EventsInsert` | src/database/migrations/1800000002000-live-engine.ts:16-25 | With increasing positions and present transaction rows the event inserts succeed if and only if every payload fits marker_payload. |
| `RollingBack.RollbackUndoesBlock` | src/indexer/indexer.store.ts:227-267 | Rolling back the block just written gives the ten tables from before, row for row. |
| `RollingBack.CascadeRemovesNothing` | src/database/migrations/1800000000000-init-tandem.ts:86-113 | Deleting an object the block created cascades to no row of a retained block. |
| `RollingBack.ObjectsRestored` | src/indexer/indexer.store.ts:241-265 | Replaying undo rows last to first restores every object row, including create_height, which the update does not write. |
| `IndexerStores.IndexerStore.ReadTip` | src/indexer/indexer.store.ts:51-59 | The row of greatest height, or none exactly when there is none. |
| `IndexerStores.IndexerStore.WriteObjectRows` | src/indexer/indexer.store.ts:146-187 | The nested loops over undo, states, spends and chapters equal the statement-by-statement specification, errors included. |
| `IndexerStores.IndexerStore.WriteBlock` | src/indexer/indexer.store.ts:81-202 | The whole imperative write equals the specification, errors included: keys, foreign keys and columns too narrow. |
| `Integrity.WriteKeepsIntact` | src/database/migrations/1800000000000-init-tandem.ts:19-113 | For any intact tables and any reduced block, reachable or not: a write that is accepted leaves every primary, unique and foreign key and both column widths intact, and the height was new. |
| `IndexerStores.IndexerStore.AppendBlocks` | src/indexer/indexer.store.ts:75-79 | All blocks are written; or a statement is refused or the transaction fails, and the tables stay as they were; or all are written and the commit is reported as failed. |
| `IndexerStores.IndexerStore.RestoreObjects` | src/indexer/indexer.store.ts:241-265 | The undo loop equals its specification. |
| `IndexerStores.IndexerStore.Rollback` | src/indexer/indexer.store.ts:208-277 | Goes through exactly when tip and stored ancestor match and the transaction commits, reported or not; then every listed height is rolled back and one journal row added, else nothing changes. |
| `Integrity.RollbackKeepsIntact` | src/database/migrations/1800000000000-init-tandem.ts:86-113 | For any intact tables and any height, stored or not, a rollback with its cascades leaves every key intact and no block at the height. |
| `Reorg.PlanReorgRollback` | src/indexer/reorg.service.ts:16-35 | A plan exists exactly inside the bounds, lists every height above the ancestor once, highest first, and none below the INIT; each refusal implies its reason. |
| `Chain.DeriveSucceeds` | src/indexer/indexer.store.ts:75-79 | Every valid chain reduces block by block without an error, with every undo, index and table invariant of the state it defines. |
| `Chain.ReplaysExactly` | src/indexer/indexer.store.ts:75-202 | A valid chain replays from empty tables, reducing and writing each block, if and only if the rows of each block fit their columns, and then to its canonical state; else a column refuses. |
| `Chain.RollbackDropsLastBlock` | src/indexer/indexer.store.ts:227-267 | Rolling back the last block of any chain gives the tables of the chain without it. |
| `Runs.BatchExtendsChain` | src/indexer/indexer.store.ts:75-79 | A batch of any length is written if and only if the longer chain is accepted, and then leaves the tables of one replay of it; else nothing but a column refuses it. |
| `Acceptance.BlockRecords` | src/indexer/block-reducer.ts:360-404 | A transaction of a block has event rows if and only if it is the INIT, has a marker candidate left or spends a carrier; the rows' payloads fit if and only if those of the lone markers do. |
| `Acceptance.LaterBlockFitsExactly` | src/database/migrations/1800000000000-init-tandem.ts:25-58 | After the INIT block the tables can hold a block if and only if its lone markers have at most 82 bytes and its recorded transactions signed 32-bit versions; after a failed INIT always. |
| `Acceptance.ActivationBlockFitsExactly` | src/indexer/block-reducer.ts:664-706 | The same of the activation block, or of its INIT alone when that failed. |
| `Acceptance.StorableIsAccepted` | src/indexer/indexer.store.ts:111-144 | A valid chain whose lone markers and versions all fit, recorded or not, is accepted. |
| `Acceptance.WideMarkerIsRefused` | src/indexer/block-reducer.ts:392-403 | After a valid INIT a block with a lone marker over 82 bytes, or a marked transaction of version 2^31 or more, reduces without an error and is refused when written, so no chain with it is accepted. |
| `Runs.RollbackCutsChain` | src/indexer/indexer.store.ts:227-267 | Rolling back the top heights leaves the tables of one replay of the shorter chain. |
| `Runs.RollbackUndoesBatch` | src/indexer/indexer.store.ts:208-277 | Appending any batch and rolling back to the old tip restores all ten tables. |
| `Runs.InitSurvivesExactly` | src/database/migrations/1800000002000-live-engine.ts:38-39 | A rollback keeps the INIT row exactly when some block is left, so not at one below the INIT height. |
| `Runs.CacheAgrees` | src/indexer/sync.service.ts:229-241 | What `loadObjects` reads, with carrier heights joined from tandem_states, is the object map the loop carried. |
| `Runs.TipIsLast` | src/indexer/indexer.store.ts:51-59 | The tip row is the chain's last block with the chained root carried on. |
| `Runs.StoredHash` | src/indexer/indexer.store.ts:61-67 | Stored hashes are the chain's, height by height, and no other height has one. |
| `Sync.SyncService.LoadObjects` | src/indexer/sync.service.ts:229-241 | Cached or read, the objects are those of one replay of the stored chain and those the query would rebuild. |
| `Sync.SyncService.FetchBlocks` | src/indexer/sync.service.ts:302-305 | The blocks of a range, all known to the node; one failed call fails the range; a steady node gives its own chain. |
| `Sync.ConnectBlocks` | src/indexer/sync.service.ts:306-322 | The inner loop takes a prefix of the fetched blocks, each following the last, and stops at the first that does not. |
| `Sync.SyncService.ConnectChunk` | src/indexer/sync.service.ts:300-324 | One chunk extends the reduced batch and what is carried to the longer chain; against a steady node it is never broken. |
| `Sync.SyncService.ReduceRange` | src/indexer/sync.service.ts:298-324 | All rounds of fetches: what is reduced is a chain of consensus blocks on top of the stored one; against a steady node the whole range, for every concurrency. |
| `Sync.SyncService.Commit` | src/indexer/sync.service.ts:325-327 | The batch is stored whole if and only if the longer chain is accepted and the transaction commits, and the cache follows it; a lost acknowledgement stores it and reports a failure; else chain, tables and cache stay. No key ever refuses it. |
| `Sync.SyncService.ConnectBatch` | src/indexer/sync.service.ts:283-349 | Whatever the node does meanwhile, the stored chain only grows; against a steady node by exactly the next blocks if the longer chain is accepted, and not at all if it is not, for every batch size and concurrency, and it reports whether more remain. |
| `Sync.SyncService.FindAncestor` | src/indexer/sync.service.ts:356-364 | The downward search stops at the highest stored height the node shares, or one below the INIT. |
| `Sync.SyncService.RollbackTo` | src/indexer/sync.service.ts:365-375 | The plan's boundary checks and the store's checks always pass; the cache is dropped with the rows; a failed transaction leaves everything, a lost acknowledgement leaves the shorter chain, as it should be. |
| `Sync.SyncService.CutTo` | src/indexer/sync.service.ts:365-373 | A cut adds exactly one journal row, with the old tip, the height and hash where the chains part, the number of blocks and the node's best hash by then; no cut, no row. |
| `Sync.SyncService.RollbackToCommonAncestor` | src/indexer/sync.service.ts:351-376 | The chain is cut to a proper prefix; against a steady node to the fork point, and no longer prefix lies on the node's chain. |
| `Sync.SyncService.ForkPoint` | src/indexer/sync.service.ts:356-364 | The height where the search stops is where the stored chain leaves the node's. |
| `Sync.SharedBelow` | src/indexer/sync.service.ts:356-364 | A shared block shares everything below it, since a hash commits to its parent. |
| `Sync.InitConfirmsOnce` | src/indexer/sync.service.ts:305-311 | On a linked chain only one block holds the INIT. |
| `Sync.SyncService.TipIsStale` | src/indexer/sync.service.ts:172-174 | Against a steady node the tip check tells exactly whether the stored chain lies on the node's. |
| `Sync.SyncService.SyncOnce` | src/indexer/sync.service.ts:151-188 | One step either grows the chain or cuts it and keeps the tables those of one replay, also when it fails; only after a failed transaction may the cache be out of date; each cut has its one journal row. Against a steady node it cuts to the fork point, or stores the next batch if and only if the longer chain is accepted. |
| `Sync.SyncService.Tick` | src/indexer/sync.service.ts:117-137 | A tick keeps tables and cache correct also when the step throws, since it then drops the cache; after a lost acknowledgement that is needed. |
| `Sync.SyncService.Run` | src/indexer/sync.service.ts:117-137 | After any number of ticks, whatever node and database do, lost acknowledgements included, the tables equal one replay of the stored chain: history leaves no trace in them. |
| `Sync.SyncService.Converge` | src/indexer/sync.service.ts:151-188 | Against a steady node that holds the INIT and without failing transactions, repeated steps roll back at most once, as the journal shows, and end under a decreasing measure: with the node's whole chain from the INIT on stored if and only if that chain is accepted, else at a batch a column refuses. |
| `Sync.SyncService.Stall` | src/indexer/sync.service.ts:325-327 | From such a batch on no number of further steps stores a block. |
| `Sync.WideBlockIsNeverStored` | src/indexer/sync.service.ts:283-349 | No stored chain on a node's chain ever reaches a block that holds, after a valid INIT, a marked transaction too wide for its columns. |
| `Conservation.UnspentAreActive` | src/indexer/indexer.store.ts:154-173 | Unspent carrier rows correspond one to one with active objects and hold 20,000 satoshis for each. |
| `Conservation.SequencesCountEvents` | src/indexer/block-reducer.ts:533-600 | In every chain an object's state sequence is the number of its stored MARK, ROTATE and CLOSE events. |
| `Conservation.CheckpointCounts` | src/indexer/block-reducer.ts:713-717 | The tip checkpoint counts the objects, the founding ones, and the active ones as unspent carriers. |
| `Conservation.ObjectsAreAccounted` | src/indexer/indexer.store.ts:154-187 | Carrier sequences run from 0 up to the bound of the status without gaps, and `chapterCount` is the number of chapter rows. |
| `Commitment.RootChains` | src/indexer/block-reducer.ts:718-728 | Each checkpoint's chained root is built from the preceding checkpoint's root or the initial root, and adds one checkpoint row. |
| `Commitment.EqualRootsEqualHistories` | src/indexer/block-reducer.ts:718-728 | With a collision-free root function, equal chained roots mean equal lengths, block hashes and checkpoint rows at every height. |
| `Commitment.EqualRootsEqualChains` | src/indexer/sync.service.ts:293-297 | With block hashes that commit to their blocks, they mean equal chains and equal tables. |
| `Contents.EventRootTells` | src/indexer/block-reducer.ts:707-712 | The event root of every stored checkpoint is the root of the events stored at its height, in order of place, each leaf field by field with zeros for what is missing. |
| `Contents.StateRootTells` | src/indexer/block-reducer.ts:713-714 | The object state root of the tip checkpoint is the root of the stored objects, field by field. |
| `Contents.ZerosAreClear` | src/indexer/block-reducer.ts:606-633 | Two stored rows with one leaf are the same but for the marker payload: type and validity tell where a zero stands for nothing. |
| `Contents.EqualRootsEqualContents` | src/indexer/block-reducer.ts:706-728 | With collision-free roots, and nothing assumed of block hashes, equal chained roots mean equal objects, equal events but for marker payloads, equal carriers, and equal chapters but for their kinds, which no root holds. |
| `SampleProtocol.SampleIsLawful` | src/indexer/block-reducer.ts:376-388 | The contract assumed of the validator is met by a concrete one, which reads INIT markers, creates, operates on a lone carrier, exits carriers, records other markers as invalid and throws on keys out of order. |
| `SampleRun.SampleMovesAnObject` | src/indexer/block-reducer.ts:497-585 | A lawful protocol and an accepted chain of 1010 blocks with an object: founded, moved by a MARK, and moved back row for row by a rollback. |
| `SampleRun.WideRowsAreRefused` | src/database/migrations/1800000000000-init-tandem.ts:25-58 | Two concrete valid chains of two blocks that do not replay: one with a lone marker of 200 bytes, one with a version of 2^31 beside a short marker. |
| `SampleRun.InitIsRolledAway` | src/indexer/reorg.service.ts:24-34 | The documented claim fails on a one-block chain: the plan to one below the INIT height is accepted and leaves empty tables. |
| `SampleRun.SampleKeepsConsensus` | src/indexer/sync.service.ts:303-310 | What is assumed of the node holds of the sample's blocks, although two txids repeat below its INIT. |
| `Regrouping.ConvertBits` | src/api/carrier-address.ts:39-65 | The accumulator loop equals `Regroup`, the rewriting of one big-endian number in another group width, refusals included. |
| `Regrouping.NarrowThenWiden` | src/api/carrier-address.ts:39-65 | Padding to narrower groups and regrouping back gives the same groups, for all widths. |
| `Regrouping.WidenThenNarrow` | src/api/carrier-address.ts:39-65 | Groups accepted without padding are the padded groups of their result, for all widths. |
| `Checksum.Polymod` | src/api/carrier-address.ts:19-29 | The nested loops compute the fold of `Step` from 1. |
| `Checksum.StepIsInjective` | src/api/carrier-address.ts:22-26 | For a fixed symbol a step maps different 30-bit states to different ones; with the bound of `StepStays` it is a bijection of them. |
| `Checksum.OneSymbolShows` | src/api/carrier-address.ts:19-29 | Replacing any one symbol by another changes the checksum. |
| `Distance.SymbolNeverFades` | src/api/carrier-address.ts:19-29 | A difference in one symbol is never again a difference of one symbol up to 60 steps on. |
| `Distance.TwoSymbolsShow` | src/api/carrier-address.ts:19-29 | Replacing any two symbols at most 60 places apart by others changes the checksum. |
| `Checksum.ChecksumIsUnique` | src/api/carrier-address.ts:98-100 | Six symbols complete a list to the residue 1 if and only if they are the computed checksum. |
| `CarrierAddresses.EncodeCarrierAddress` | src/api/carrier-address.ts:89-102 | Equals the specification `Encode`; anything but 64 lower-case hex digits is refused. |
| `CarrierAddresses.DecodeCarrierAddress` | src/api/carrier-address.ts:67-87 | Equals the specification `Decode`, every refusal included. |
| `CarrierAddresses.AddressIsChecked` | src/api/carrier-address.ts:31-37 | Every address has residue 1 over, index by index: each prefix character over 32, a zero, each prefix character modulo 32, and the symbols its characters after the separator stand for. |
| `CarrierAddresses.AcceptedIsChecked` | src/api/carrier-address.ts:76-81 | So has every accepted address, in lower case. |
| `AddressVectors.MainnetVector` | src/api/carrier-address.ts:89-102 | The 32-byte program of BIP 173 encodes to, and decodes from, its published mainnet address. |
| `AddressVectors.TestnetVector` | src/api/carrier-address.ts:89-102 | And its published test network address. |
| `CarrierAddresses.EncodeThenDecode` | src/api/carrier-address.ts:67-102 | Decoding the address of a program gives it back, for every 32-byte program and network. |
| `CarrierAddresses.DecodeThenEncode` | src/api/carrier-address.ts:67-102 | Re-encoding the program of any accepted address gives its lower-case form. |
| `CarrierAddresses.AcceptedExactly` | src/api/carrier-address.ts:67-87 | An address is accepted if and only if it is in one case and its lower-case form is the encoding of some program. |
| `CarrierAddresses.OneCharacterShows` | src/api/carrier-address.ts:81 | Replacing any one character of an accepted address, other than by its other case, is always rejected. |
| `CarrierAddresses.TwoCharactersShow` | src/api/carrier-address.ts:67-87 | Replacing any two characters of an accepted address, other than by their other case, is always rejected. |
| `CarrierAddresses.KelvinIsAccepted` | src/api/carrier-address.ts:69-70 | An accepted upper-case address stays accepted, as the same address, with a Kelvin sign in place of a K. |
| `BlockEventsCursors.CursorRoundTrip` | src/api/block-events.service.ts:31-61 | Decoding yields a cursor if and only if the cursor is in range and the text is its encoding; encodings have at most 151 characters. |
| `BlockEventsCursors.EncodingsDiffer` | src/api/block-events.service.ts:31-37 | Different cursors, in range or not, have different texts. |
| `BlockEventsCursors.ParseFields` | src/api/block-events.service.ts:18-19 | The body pattern reads back the six joined fields of every in-range cursor. |
| `Keyset.PageLeaves` | src/api/block-events.service.ts:177-217 | What lies after a full page's last row is exactly what the pages so far left out. |
| `Keyset.OrderIsUnique` | src/api/block-events.service.ts:189 | There is one ascending order of a set of rows. |
| `BlockEventPages.PagingIsComplete` | src/api/block-events.service.ts:141-228 | For every limit, following `nextCursor` from the first page yields the slices of the block's events in order, exactly as many pages as rows need, and no cursor is refused. |
| `BlockEventPages.PagesShowTheBlock` | src/api/block-events.service.ts:177-205 | For every block of a stored chain those events are the ones reducing the block recorded, in the order recorded. |
| `PagesAcrossReorgs.ShownChangeObjects` | src/api/block-events.service.ts:177-190 | The shown events of a stored chain are exactly those that name an object, and the valid INIT's. |
| `BlockEventPages.BlockPagesAreComplete` | src/api/block-events.service.ts:141-228 | End to end, for every block of every stored chain and every limit: following the cursors yields exactly the events reducing the block recorded, in order, and no cursor is refused. |
| `PagesAcrossReorgs.CursorBelongsToBlock` | src/api/block-events.service.ts:154-176 | For any two stored chains, a cursor handed out over one is accepted over the other if it stores a block of the same 64 digits at the height, and refused as not belonging to the indexed block if not. |
| `PagesAcrossReorgs.CursorBelongsToHeight` | src/api/block-events.service.ts:101-106 | A cursor of one height is an invalid cursor at every other, over any tables. |
| `PagesAcrossReorgs.OtherHeights` | src/api/block-events.service.ts:150-176 | Above the tip a page is not indexed and not complete; below the INIT block it is complete and empty. |
| `PagesAcrossReorgs.SessionShowsOneBlock` | src/api/block-events.service.ts:141-228 | While the chain changes between requests, a request is answered if and only if the block the session began with is still stored, and then with the next slice of its events: no event is missed or shown twice across a reorg. |
| `Catalog.PagingIsComplete` | src/api/tandem-catalog.service.ts:223-263 | Likewise over all objects, newest first: every request passes the stale-cursor and consistency checks, offset against total included. |
| `Catalog.ServedPagesAreConsistent` | src/api/tandem-catalog.service.ts:207-264 | Whatever the tables and the cursor hold, a served page agrees with its checkpoint in tip, roots and all counts, lists stored objects no younger than the tip, fits its count, and says more follows exactly if it does. |
| `Catalog.NewestFirst` | src/api/tandem-catalog.service.ts:229-240 | The listing descends by creation height and ascends by key within one. |
| `CatalogSnapshots.CursorBelongsToSnapshot` | src/api/tandem-catalog.service.ts:207-229 | With a collision-free digest a cursor is refused for another limit, for tables that disagree, and as a changed snapshot whenever checkpoint, epoch or count differ. |
| `CatalogSnapshots.SessionShowsOneSnapshot` | src/api/tandem-catalog.service.ts:207-263 | While chain, checkpoint and epoch change between requests, a request is answered if and only if all are as when the session began, and then with the next slice of the objects listed then. |
| `Catalog.StoredChainPages` | src/api/tandem-catalog.service.ts:207-222 | In every stored chain the tables agree with their own tip checkpoint and no object is younger than the tip, so the catalog pages completely. |
| `Catalog.ObjectsCreatedBy` | src/indexer/block-reducer.ts:508 | Every object was created between the INIT block and the tip. |
| `DerSignatures.IsStrictDerWithHashType` | src/indexer/evidence.ts:69-82 | The answer does not depend on what a missing element reads as: no index falls back to its default. |
| `DerSignatures.MinimalIsEncoding` | src/indexer/evidence.ts:77-80 | Byte strings in minimal non-negative form are exactly the encodings of the non-negative integers, one each. |
| `DerSignatures.StrictIsEncoding` | src/indexer/evidence.ts:69-86 | A signature is strict with values r and s and a hash type if and only if it is the encoding of that triple and has at most 73 bytes. |
| `DerSignatures.CheckSignature` | src/indexer/evidence.ts:128-163 | The evidence is strict exactly for encodings, and its low-s and verification flags speak of the encoded pair. |

## Left out

- RPC transport, HTTP, ZMQ, configuration, logging, metrics and the status object: I/O and glue. The checks that the node's chain name and the binding are configured (`src/indexer/sync.service.ts:159-167`) are taken as passed.
- `locateInit`'s hint, mempool lookup and bounded scan: an oracle by number of node calls; a wrong height is handled as the code handles it.
- The service's timer and wake-up: `Run` is any number of ticks.
- SHA-256, HMAC, secp256k1 and the vendored root, marker and key functions: fields of `Protocol` or parameters. Injectivity is a hypothesis only where a result names it (`CollisionFree`, `RootsCommit`, `DigestCommits`, `HashesCommit`, object keys in `Lawful`).
- The inner rules of the validator (fees, scripts, refund shape): beyond its contract. The length checks inside the vendored root functions are not modelled as throws.
- Failed database reads: like a failed node call they throw before anything changes. Whole transactions fail here, or lose their acknowledgement.
- Surrogate auto-increment ids: left out of every table; the undo journal keeps insertion order, which is what its id orders by.
- Column widths other than version and marker_payload: event places are proved to fit their unsigned 32-bit columns; lock times, the INIT's heights and marker sequences are read as unsigned 32-bit numbers, block heights and counts stay far below theirs, and hashes, keys and commitments have one length each.
- The reorg journal's time stamp and generated id: the journal is a list that only rollbacks extend, outside the canonical tables.
- Transaction isolation and locks: a transaction is one atomic step.
- Reducer.DeclaredLength: a four-byte push whose length bytes are cut short raises in the source and reads as -1 here; the vendored inspection calls no such script a candidate, so neither happens.
- `initHeights` reads the first output with the candidate's position; positions are taken as the node numbers them.
- Carrier keys and witness items: byte strings, so the lower-casing of their hex text is not modelled.
- Letter case outside ASCII: only the Kelvin sign is mapped; any other character outside ASCII is kept, and an address that holds one is rejected either way. Text is a sequence of characters, not of UTF-16 units.
- The byte-to-hex conversions of the address codec are the regrouping specification, not a loop, as the source leaves them to a library.
- The catalog's token, deadline, admission counter, cursor authentication and the closing node check: settled by reading one branch, or timing. A cursor reaches the model after its authentication; snapshot hash and limit are compared as in the source.
- The presentation of events and objects as JSON fields, the readiness gates, the mempool overlay, the agreement envelope and the verified gateway.
- Transaction evidence and the sighash digest (`src/indexer/evidence.ts:88-126`): inside the validator's and the verifier's functions.
- The half order of the curve is a parameter of `CheckSignature`: the curve library is not part of this model.
- `site/` ports of the encoder and the state machine: teaching copies.
