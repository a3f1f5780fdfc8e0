# Verified models of an EPaxos replica, a content-addressed file system and a path lock server

Three programs of this repository are modelled in Dafny, and the properties they exist for are proved.

**The EPaxos replica** (`sylan/p4/partB/replica/replica.go`). A replica keeps a two-dimensional log, one
row per leader. A leader proposes an instance with a Seq above every conflicting Seq it logs and one
dependency per row; N/2 peers pre-accept it, possibly raising both; if nothing changed the leader commits
at once, otherwise after a second round. One reply counter serves both rounds, and the commit itself runs
later, in a goroutine. Committed instances are applied to a key-value map in dependency order.

- `EpaxosTypes`, `EpaxosScan`, `EpaxosHandlers`, `EpaxosExecution`: messages, the conflict scan, every
  handler and `executeSome` as functions on the state of one replica.
- `EpaxosReplica`: the replica as it runs, a class whose methods update its fields in loops; every method
  is proved equal to the function it implements.
- `EpaxosProtocol`, `EpaxosInstance`, `EpaxosSafety`: N replicas and their FIFO links as a state machine,
  what one instance looks like in it at each stage, and the inductive invariant.
- `EpaxosTheorems`, `EpaxosConflicts`, `EpaxosOrder`, `EpaxosConvergence`, `EpaxosLinks`: what follows for
  every run of any length, any number of replicas and any interleaving.
- `EpaxosDemands`, `EpaxosDecision`: what a replica's log demands of a record, and that a decision is the maximum
  of what the quorum's logs demanded.
- `EpaxosAnswers`: what reads are answered with and what the map holds, told from the operations alone.
- `EpaxosProgress`, `EpaxosMarks`: that everything proposed gets decided and executed, and how far a replica has come.
- `EpaxosLone`: runs in which one replica proposes.
- `EpaxosCrossing`, `EpaxosRounds`, `EpaxosBatches`: runs of two replicas, state by state, that show what can
  be reached: where the code keeps more than it promises, and where replicas come apart.

**The file tree** (`sylan/p2/dfs/fs.go`, again in `sylan/p3/main.go`). Nodes live in memory, loaded lazily
from an append-only store whose keys are hashes. A change marks a node and its ancestors dirty; a periodic
save writes every dirty node under a new key, bottom up, and publishes the root's key as the head. File
bytes are cut into chunks by a rolling hash.

- `Chunking`: the hash, where it cuts, and the scan in its Go and its C form.
- `TreeStore`: the store, the trees its keys decode to, and version chains.
- `TreeNodes`, `TreeSave`, `TreeOps`, `TreeHistory`: the node table, its invariant, what marking, loading,
  saving and each operation do to it, and reading back.
- `TreeSteps`, `TreeSynced`, `TreeMoments`: what each step relies on, how far memory and blocks agree, and
  what has been published at each moment.
- `FileTree`: the file system as it runs, a class over the node table and the store.
- `FileRuns`, `FileWrites`, `FileMoves`, `FileTimes`: whole stories told with it, of files cut short, written before
  they are loaded, and moved, and of what is found when an earlier time is asked for.
- `TreeCodec`: a hash and an encoding that meet the assumptions made about them.

**The lock server** (`sylan/p3/lock/main.go`). A request locks its whole path in one table, then every
level of the path from the root down in another: its own level in the mode asked for, the others shared.

- `LockPaths`: filtering a path and computing its levels.
- `LockProtocol`, `LockTheorems`: requests as steps on single Go RWMutexes (a writer announces itself and
  then waits for readers), in any interleaving, for any number of requests.
- `LockNames`: which path a request is for, and what requests wait for.
- `LockCoexistence`: which exclusive holds protect what lies below them, by runs that show the others do not.
- `LockServer`: the two tables as they are changed in place.

## What the proofs found

- The conflict scan carries one running maximum across all rows, so a conflicting row may get no
  dependency at all; `EpaxosCrossing.MissedConflict` is a run that leads there and `EpaxosScan.RowCoveredIff`
  says exactly when a row is covered. The replica's README (`sylan/p4/partB/README.md`) defines dependencies
  as the nearest conflicting operations; the code is what is modelled.
- Two conflicting writes proposed at once end in one component under one Seq, and the tie-break, which compares
  a value with itself, leaves their order open: in `EpaxosCrossing.Divergence` two replicas end with different
  data. `EpaxosLinks.LinkedReplicasConverge` gives a condition on the logs under which this cannot happen: of
  any two executed instances that share a key, one depends on the other through a chain of dependencies along
  which the Seqs rise.
- With one proposer the condition always holds, so replicas always converge, as long as every batch is about one
  key (`EpaxosLone.LoneProposerConverges`). A batch of two keys still gets one dependency per row, on one of the
  instances it shares a key with, and in `EpaxosBatches.BatchesDiverge` one proposer's three batches leave two
  replicas with different data.
- `Setattr` that shortens a file changes neither its blocks nor its dirty flag, so the next flush passes it
  over and a reload brings the old bytes back. `FileRuns.SetattrAndRemount` proves both: from a synced tree
  the reload equals the tree in memory if and only if no byte was cut off, and in any case it has the bytes
  from before. `FileRuns.CutByteComesBack` is an instance.
- A file written before it is loaded is damaged in either order. Loaded before it is flushed, it has its old
  bytes and what was written is lost, unless it was there before (`FileWrites.WriteThenLoad`). Flushed first, it
  has what was written and nothing else, so old bytes past its end are lost: `FileWrites.WriteThenFlush` says
  exactly when none are. `FileWrites.WriteIsLost` and `FileWrites.RestIsLost` show both on a file mounted again.
- `Rename` into another directory keeps the tree consistent if and only if that directory is the old one
  (`FileTree.FileSystem.Rename`): the kid keeps its parent pointer and the new directory is not marked. The next
  save records the entry if and only if the new directory was dirty before or lies above the entry's old place
  (`TreeOps.MovedEntryIsRecordedIff`); in `FileMoves.MovedFileIsForgotten` a file moved into a directory just
  saved is in neither record. `Rename` of an entry to its own name removes it.
- A root that was never touched is clean and has no signature, so the first save publishes an empty head,
  which a later mount cannot read; `FileTree.FileSystem.SaveAndPublish` says exactly when.
- `Create` and `Mkdir` spend an inode number even when the name is taken.
- An exclusive request protects what lies below it if and only if the first part of its path is not empty, or it
  is for `//`, which asks for the root twice and never gets it: `LockCoexistence.ExclusionExactly` shows, for
  every other path and everything below it, a reachable state in which both are held.
  `LockTheorems.DrainableExactly` says when requests can all be served.
- `Release` asks nothing about who holds the locks: `LockServer.LockServer.Release` says what it gives back, when
  it stops the server, and when it unlocks a lock that a writer waits for or has in the mode it is not locked in.

## Model

| member | source | states |
|---|---|---|
| EpaxosScan.ScanMeaning | sylan/p4/partB/replica/replica.go:685-709 | The scan's result without its loops: the maximum Seq over all conflicting logged instances (0 if none), per row the one instance that stands out or -1 exactly when none does, and a dependency that names an instance of the maximum when it is positive |
| EpaxosScan.ChosenSeqsIncrease | sylan/p4/partB/replica/replica.go:700-705 | Every non-negative dependency names a conflicting instance, and the Seqs of chosen dependencies strictly increase with the row |
| EpaxosScan.ChosenUnique | sylan/p4/partB/replica/replica.go:690-706 | At most one instance of a row can stand out, so the dependency vector is determined by the log |
| EpaxosScan.RowCoveredIff | sylan/p4/partB/replica/replica.go:702-705 | A row contributes a dependency if and only if one of its conflicts has a positive Seq above every conflicting Seq of earlier rows |
| EpaxosReplica.Server.SharesKey | sylan/p4/partB/replica/replica.go:693-701 | The nested key comparison returns whether the two operation lists share a key |
| EpaxosReplica.Server.FindMaxConflict | sylan/p4/partB/replica/replica.go:685-709 | The nested loops over the log, with the running maximum, compute the scan |
| EpaxosReplica.Server.HandleProposition | sylan/p4/partB/replica/replica.go:712-737 | Logs in its next slot a record with the Seq and dependencies its log demands, no more and no less, and sends it to exactly the N/2 replicas after it, counting round; the whole new state |
| EpaxosReplica.Server.HandlePreAcceptRequest | sylan/p4/partB/replica/replica.go:739-769 | The Seq and each dependency logged and answered are the larger of the leader's and of what the peer's own log demands, and the answer is marked as changed if and only if the leader's was or is not just what the log demands; the whole new state |
| EpaxosReplica.Server.Raise | sylan/p4/partB/replica/replica.go:803-811 | A changed answer raises the leader's record to the pointwise maximum and marks it; an unchanged one leaves it |
| EpaxosReplica.Server.HandlePreAcceptReply | sylan/p4/partB/replica/replica.go:788-836 | Late answers are ignored; otherwise count, raise, and on a majority reset the counter and take the slow or the fast path; the whole new state |
| EpaxosReplica.Server.RunPendingCommit | sylan/p4/partB/replica/replica.go:771-786 | The delayed commit marks the leader's record and tells every other replica; the whole new state |
| EpaxosReplica.Server.HandleAcceptRequest | sylan/p4/partB/replica/replica.go:838-853 | Logs the accepted record under the sender's row, growing it with holes, and answers |
| EpaxosReplica.Server.HandleAcceptReply | sylan/p4/partB/replica/replica.go:855-864 | Counts, and decides once a majority has accepted unless already decided |
| EpaxosReplica.Server.HandleCommit | sylan/p4/partB/replica/replica.go:866-872 | Logs the committed record under its leader's row |
| EpaxosReplica.Server.Apply | sylan/p4/partB/replica/replica.go:590-604 | Each read comes back with the value of the last write to its key before it in the batch, nil after a deletion, and what the map held if there is neither; all else comes back as it was; each key of the map has its last write |
| EpaxosReplica.Server.RunComponents | sylan/p4/partB/replica/replica.go:534-558 | The nested execution loops, with both breaks, are the specified visit of all components |
| EpaxosReplica.StoppedForGood | sylan/p4/partB/replica/replica.go:540-557 | Once the search gives up at a node, no later component or node changes anything |
| EpaxosDemands.ThriftyComesAfter | sylan/p4/partB/replica/replica.go:176-180 | The thrifty peers of a replica are the N/2 replicas after it, counting round |
| EpaxosDemands.ProposalMeets | sylan/p4/partB/replica/replica.go:712-737 | A proposal has just the Seq and the dependencies its leader's log demands, and goes to the N/2 replicas after the leader and to no other |
| EpaxosDemands.PeerJoins | sylan/p4/partB/replica/replica.go:739-769 | What a peer logs and answers is the leader's record joined, part by part, with what its own log demands, and it says so when the two differ |
| EpaxosAnswers.BatchMap | sylan/p4/partB/replica/replica.go:590-604 | After a batch each key holds the value of its last write, nothing if its last change is a deletion, and what it held if it was not changed |
| EpaxosAnswers.BatchAnswers | sylan/p4/partB/replica/replica.go:594-598 | A read comes back with what its key holds just before it, every other operation as it was |
| EpaxosSafety.StartInv | sylan/p4/partB/replica/replica.go:165-180 | The freshly started system satisfies the invariant |
| EpaxosSafety.StepInv | sylan/p4/partB/replica/replica.go:712-872 | Every proposal, delivery, delayed commit and execution keeps the invariant, and no entry of any replica moves backwards in it |
| EpaxosInstance.KeepsFastPath | sylan/p4/partB/replica/replica.go:829-833 | The last unchanged pre-accept answer turns phase one into a decision held alike by all N/2 peers |
| EpaxosInstance.KeepsSlowPath | sylan/p4/partB/replica/replica.go:820-828 | The last pre-accept answer, with a change, turns phase one into phase two with a counter of 0 and one accept per peer |
| EpaxosInstance.KeepsAcceptReply | sylan/p4/partB/replica/replica.go:855-864 | An accept answer advances phase two, and the last one makes it a decision |
| EpaxosTheorems.NothingFaults | sylan/p4/partB/replica/replica.go:630-650 | In every reachable state the handler for the message at the head of any link finds what it needs |
| EpaxosTheorems.CommitsFindTheirInstance | sylan/p4/partB/replica/replica.go:771-776 | A launched commit always finds its instance in the leader's log |
| EpaxosTheorems.Agreement | sylan/p4/partB/replica/replica.go:771-872 | Any two replicas that hold an instance as committed or executed agree on Seq, Deps and operations, read results aside |
| EpaxosTheorems.QuorumIsMajority | sylan/p4/partB/replica/replica.go:176-180 | The leader and its thrifty peers are N/2 + 1 distinct replicas, a strict majority |
| EpaxosTheorems.DecisionPoint | sylan/p4/partB/replica/replica.go:816-864 | On either path, at the step that launches a commit the slot was not decided before and every quorum member logs the leader's Seq, Deps and operations |
| EpaxosTheorems.DecidedOnce | sylan/p4/partB/replica/replica.go:855-864 | In every run a slot's commit is launched at most once, though both phases share one counter |
| EpaxosTheorems.LeaderTakesTheMaximum | sylan/p4/partB/replica/replica.go:796-813 | When the last pre-accept answer is handled, Seq and every dependency are the maximum of the proposal and of what all N/2 peers logged, in any order of arrival |
| EpaxosTheorems.NeverBackwards | sylan/p4/partB/replica/replica.go:739-872 | Along every run no replica's entry goes back in state or numbers, its operations stay, and decisions stay |
| EpaxosTheorems.ExecutedOnce | sylan/p4/partB/replica/replica.go:536-549 | In every run a replica executes an instance at most once |
| EpaxosConflicts.FirstLogging | sylan/p4/partB/replica/replica.go:712-769 | Whenever a quorum member first logs an instance, it does so under a Seq above every conflicting instance it already holds |
| EpaxosConflicts.FastSeqIsFixed | sylan/p4/partB/replica/replica.go:829-833 | At any time of the run a quorum member that holds an instance later decided on the fast path holds it under its decided Seq |
| EpaxosConflicts.ConflictsAreOrdered | sylan/p4/partB/replica/replica.go:685-835 | For any two decided instances sharing a key, some replica of both quorums logged one while holding the other, and the later one's decided Seq exceeds the Seq the earlier then had there |
| EpaxosConflicts.FastConflictsDiffer | sylan/p4/partB/replica/replica.go:829-833 | Two conflicting instances decided on the fast path never have equal Seq |
| EpaxosDecision.DecisionIsTheMaximum | sylan/p4/partB/replica/replica.go:685-864 | In every run the Seq and each dependency of a decided instance are the largest that any quorum member's log demanded when that member first logged it, and one member's log demanded just that |
| EpaxosDecision.QuorumDemands | sylan/p4/partB/replica/replica.go:739-769 | Every quorum member of a decided instance had such a first time and such a demand |
| EpaxosProgress.QuietIsDecided | sylan/p4/partB/replica/replica.go:712-872 | When no message and no commit is under way, every instance ever proposed is decided at every replica |
| EpaxosProgress.DepsAreProposed | sylan/p4/partB/replica/replica.go:700-705 | In every state of a run every dependency of every logged record names a proposed instance |
| EpaxosProgress.ExecutionCompletes | sylan/p4/partB/replica/replica.go:534-558 | If the dependencies of all committed instances are decided, one call of executeSome runs every committed instance it comes to, in any order |
| EpaxosProgress.EverythingRuns | sylan/p4/partB/replica/replica.go:484-561 | When nothing is under way, one call of executeSome over all instances leaves everything ever proposed executed |
| EpaxosExecution.ExecuteToRan | sylan/p4/partB/replica/replica.go:534-561 | Execution only turns committed entries into executed ones of the same decision, in the replica's own log |
| EpaxosOrder.DependenciesFirst | sylan/p4/partB/replica/replica.go:534-556 | When an instance is executed every dependency is at least committed and every one outside its component is executed, for any log and any order whose edges point back |
| EpaxosOrder.ExecuteTrace | sylan/p4/partB/replica/replica.go:534-561 | executeSome runs exactly the instances of its trace, once each, and leaves the map and read results of running them in that order |
| EpaxosConvergence.HistoryIsLedger | sylan/p4/partB/replica/replica.go:484-610 | In every state of every run, a replica's map and logged read results are those of running its execution history from the empty map, and the history is exactly the instances it marks executed, once each |
| EpaxosAnswers.MapIsLastWrites | sylan/p4/partB/replica/replica.go:590-604 | In every state of every run each key of a replica's map holds the last write to it in the replica's execution history, and is missing if never written or deleted last |
| EpaxosAnswers.AnswerIsLastWrite | sylan/p4/partB/replica/replica.go:594-598 | In every state of every run each logged answer to a read is the last write to its key before it in the execution history |
| EpaxosMarks.MarksAlong | sylan/p4/partB/replica/replica.go:550-552 | In every state of every run a row's mark is -1 as long as nothing of it was run, and then an executed slot of the greatest Seq among the executed ones |
| EpaxosConvergence.OnlyExecutionExecutes | sylan/p4/partB/replica/replica.go:739-872 | No message, proposal or commit ever makes an entry executed |
| EpaxosConvergence.Convergence | sylan/p4/partB/replica/replica.go:484-610 | Two replicas of a run that executed the same instances, conflicting ones in the same order, hold the same map and have answered every read alike |
| EpaxosOrder.RunFirst | sylan/p4/partB/replica/replica.go:590-610 | An instance that conflicts with nothing before it can be run first without changing the map or any answer |
| EpaxosOrder.OrderOfConflictsSuffices | sylan/p4/partB/replica/replica.go:590-610 | Two orders of the same instances that agree on conflicting pairs leave the same map and give every read the same answer |
| EpaxosLinks.LinkRunsFirst | sylan/p4/partB/replica/replica.go:464-470 | In one call of executeSome, with components sorted by Seq and ties in any order, a dependency with a smaller Seq has been executed when an instance runs, in its component or not |
| EpaxosLinks.HistoryIsLinkOrdered | sylan/p4/partB/replica/replica.go:484-561 | In every run every replica ran each instance after all its dependencies with a smaller Seq, and all its dependencies are decided |
| EpaxosLinks.ChainComesBefore | sylan/p4/partB/replica/replica.go:484-561 | Whatever a chain of dependencies with rising Seqs starts from is run before what it ends in, and the whole chain is run |
| EpaxosLinks.LinkedReplicasConverge | sylan/p4/partB/replica/replica.go:484-610 | Two replicas that executed the same instances agree on data and answers if of any two that share a key one depends on the other through a chain of dependencies with rising Seqs |
| EpaxosLone.LoneStep | sylan/p4/partB/replica/replica.go:685-872 | With one proposer and batches of one key, every event keeps: all logs and messages carry the Seq and dependencies first proposed, which name the last conflict before, under a smaller Seq |
| EpaxosLone.LoneIsChained | sylan/p4/partB/replica/replica.go:685-709 | In every such run, at every replica, of any two executed instances that share a key a chain leads from the earlier to the later |
| EpaxosLone.LoneProposerConverges | sylan/p4/partB/replica/replica.go:484-610 | In every run with one proposer and batches of one key, two replicas that executed the same instances agree on data and answers |
| EpaxosRounds.RoundsRun | sylan/p4/partB/replica/replica.go:712-872 | For any list of batches, a run in which one of two replicas proposes them in turn, each is decided as proposed, and each replica executes them in any given order that respects dependencies |
| EpaxosBatches.BatchesAreChained | sylan/p4/partB/replica/replica.go:563-569 | For any list of batches of one key each, a run of two replicas that executes them all and whose log meets the condition for convergence |
| EpaxosBatches.BatchesDiverge | sylan/p4/partB/replica/replica.go:563-569 | A run in which one replica proposes a write of one key, a write of another and a batch of both, after which two replicas have executed the same instances and their data differ |
| EpaxosCrossing.MissedConflict | sylan/p4/partB/replica/replica.go:702-705 | A run of two replicas after which a scan leaves a row without a dependency though it holds a conflict under the maximum Seq |
| EpaxosCrossing.Divergence | sylan/p4/partB/replica/replica.go:464-470 | A run of two replicas, every component in an order the program can produce, after which both have executed the same instances and their data differ |
| Chunking.RollingHash | sylan/p2/dfs/fs.go:537-563 | At every step the incremental hash equals the base-31 polynomial of the last 32 bytes modulo 2^64, wrap-around of the table included |
| Chunking.CutIsFirst | sylan/p2/dfs/fs.go:561-569 | The returned offset is the first at which the hash or the size limit says cut, or the end |
| Chunking.NextCutCuts | sylan/p2/dfs/fs.go:537-570 | The cut, with its numbers: at the first hit of the 64-bit base-31 hash of 32 bytes from 2048 bytes on, at 8192 bytes at the latest, at the end otherwise |
| Chunking.CutsOnce | sylan/p2/dfs/fs.go:561-569 | That condition holds of one offset only |
| Chunking.OneCuts | sylan/p2/dfs/fs.go:561-569 | Data of zeros but for a one as byte 2048 are cut right after it |
| Chunking.ChunkEnds | sylan/p2/dfs/fs.go:379-387 | Every chunk of a file ends where the data from its beginning on are cut |
| Chunking.NextCutBounds | sylan/p2/dfs/fs.go:561-569 | A cut lies between 1 and 8192, and at or past 2048 unless it is the end of the data |
| Chunking.CutIsLocal | sylan/p2/dfs/fs.go:561-569 | A cut inside the data does not depend on what follows it |
| Chunking.ChunksRebuild | sylan/p2/dfs/fs.go:379-387 | The chunks concatenate to the file's bytes |
| Chunking.ChunkSizes | sylan/p2/dfs/fs.go:379-387 | Every chunk has 1 to 8192 bytes, every one but the last at least 2048 |
| Chunking.ChunksFromBoundary | sylan/p2/dfs/fs.go:379-387 | Chunking the data from any chunk boundary yields exactly the tail of the chunk list |
| Chunking.AppendingKeepsChunks | sylan/p2/dfs/fs.go:379-387 | Appending bytes changes no chunk but the last |
| Chunking.GetNextChunkOff | sylan/p2/dfs/fs.go:537-570 | The cut is at the first offset from 2048 on where the base-31 value of the 32 bytes before it, modulo 2^64, leaves 1 modulo 4096, at 8192 if there is none before, and at the end of shorter data |
| Chunking.CachedChunker.NextChunk | sylan/p2/rk.c:28-64 | The C form, whose table is filled by the first call and kept, finds on every call the same cut, with the same numbers |
| TreeStore.StoresUnique | sylan/p2/dfs/fs.go:622-638 | A key decodes to one tree only |
| TreeStore.StoresForever | sylan/p2/dfs/fs.go:518-525 | What a key decodes to, children and blocks included, is the same in every later store |
| TreeStore.ChainCounts | sylan/p2/dfs/fs.go:788-793 | Behind an archived key every version number from its own down to 1 occurs exactly once |
| TreeStore.VersionsFall | sylan/p2/dfs/fs.go:788-793 | Every earlier version of an archived key has a smaller number, at least 1 |
| TreeNodes.UpdateRestores | sylan/p2/dfs/fs.go:503-516 | Whatever changed on the path from a node to the root, marking the path makes the whole table consistent with the store again |
| TreeNodes.AncestorsDirty | sylan/p2/dfs/fs.go:503-516 | Every node above a dirty one is dirty |
| TreeSave.CleanReadsBack | sylan/p2/dfs/fs.go:777-785 | A clean saved node decodes to what is in memory if and only if everything below it is synced, so saving may skip it |
| TreeSave.SavedCompose | sylan/p2/dfs/fs.go:782-786 | Saving some nodes and then more is saving them all: each saved node gets the Merkle signature of the table before |
| TreeSave.SaveKeeps | sylan/p2/dfs/fs.go:787-799 | Saving a node whose kids are clean keeps table, store and archive consistent, its new version and history included |
| TreeSave.SavingKeepsSynced | sylan/p2/dfs/fs.go:777-801 | Saving neither syncs nor unsyncs anything |
| TreeOps.AddKeeps | sylan/p2/dfs/fs.go:271-318 | Adding a newborn under a loaded directory and marking it keeps the invariant |
| TreeOps.EditKeeps | sylan/p2/dfs/fs.go:224-269 | Any change to one loaded node that keeps its place and history, and is marked, keeps the invariant |
| TreeOps.WriteKeeps | sylan/p2/dfs/fs.go:347-372 | Writing, which leaves a clean node clean, keeps the invariant: clean nodes match their record but for unflushed data |
| TreeOps.LoadKeeps | sylan/p2/dfs/fs.go:320-333 | Loading keeps the invariant: the fetched kids match the records at their signatures |
| TreeOps.LoadIsInvisible | sylan/p2/dfs/fs.go:320-333 | Loading a node changes the tree that no node stands for |
| TreeOps.MovedEntryIsRecordedIff | sylan/p2/dfs/fs.go:488-495 | After a move into a loaded directory that was dirty or once saved, the next save records the entry there if and only if the directory was dirty or lies above the entry's old place; otherwise the directory stays clean and the record it is saved under does not mention the entry |
| TreeOps.RenameKeeps | sylan/p2/dfs/fs.go:488-493 | Moving an entry to another name and marking it keeps the invariant, and marking the directory as well adds nothing |
| TreeSynced.LoadingStaysSynced | sylan/p2/dfs/fs.go:320-333 | Loading a node leaves the tree as synced as it was |
| TreeSynced.SetattrSyncs | sylan/p2/dfs/fs.go:257-263 | After Setattr on an attached node of a synced tree, the tree is synced if and only if no byte was cut off |
| TreeSynced.PartOfArchive | sylan/p2/dfs/fs.go:572-589 | Following names down from what a clean directory decodes to leads to what the node below decodes to |
| TreeMoments.KeptForever | sylan/p2/dfs/fs.go:598-607 | What is kept as archived stays kept in every later store, with the same tree and no other |
| TreeCodec.SoundCodecExists | sylan/p2/dfs/fs.go:97-112 | A hash and an encoding meet the assumptions made about SHA-1 and the node encoding |
| TreeHistory.Reload | sylan/p2/dfs/fs.go:320-333 | Fetching a key and everything below it, recursively, yields the tree it decodes to |
| TreeHistory.TimedVersion | sylan/p2/dfs/fs.go:740-749 | Terminates, and returns the highest-numbered version older than the given time, or nothing exactly when there is none |
| TreeHistory.ArchivalImmutability | sylan/p2/dfs/fs.go:598-607 | In every later state an archived key has its children, blocks and previous version in the store, decodes to the same tree and no other, and has the same versions |
| FileTree.FileSystem.Create | sylan/p2/dfs/fs.go:838-843 | A fresh file system: one clean root without a signature |
| FileTree.FileSystem.LoadAllData | sylan/p2/dfs/fs.go:320-333 | The node gets the bytes of its blocks and one unloaded kid per child signature, nothing else changes, and every node stands for the same tree as before |
| FileTree.FileSystem.Update | sylan/p2/dfs/fs.go:503-516 | The walk up the parent pointers gives exactly the node and its ancestors the time and marks them, and leaves every other field and node alone |
| FileTree.FileSystem.AddNode | sylan/p2/dfs/fs.go:271-318 | Permission and existing-name cases, the spent inode number, the new node field by field, its entry, the new table, and the invariant |
| FileTree.FileSystem.Mkdir | sylan/p2/dfs/fs.go:271-293 | The outcomes, and on success a directory under the name with the next inode number |
| FileTree.FileSystem.CreateFile | sylan/p2/dfs/fs.go:295-318 | The outcomes, and on success an empty file under the name with the next inode number |
| FileTree.FileSystem.Setattr | sylan/p2/dfs/fs.go:224-269 | Each field after it, requested or not, and the time of the change; a synced node stays synced if and only if no byte was cut off, its dirty flag being left alone |
| FileTree.FileSystem.Write | sylan/p2/dfs/fs.go:347-372 | Byte by byte, the buffer from the offset on and the old bytes elsewhere, the size that of the data, the flag set, nothing else changed; a node not yet loaded still stands for the bytes it had |
| FileTree.FileSystem.Overwrite | sylan/p2/dfs/fs.go:356-366 | The byte loop lays the buffer over the data, extending it past the end |
| FileTree.FileSystem.GoFlush | sylan/p2/dfs/fs.go:374-393 | The blocks become the keys of the data's chunks, they read back as the data, only they are added to the store, and the node and its ancestors are marked; a node written to without being loaded is loaded on the way, one without data is left alone |
| FileTree.FileSystem.StoreChunks | sylan/p2/dfs/fs.go:379-387 | The loop ends, its keys are those of the chunks in order, and the store grew by them and nothing else |
| FileTree.FileSystem.Flush | sylan/p2/dfs/fs.go:395-403 | A dirty node ends up synced with its bytes unchanged, the whole table and the growth of the store being given; a node that is not dirty is passed over |
| FileTree.FileSystem.Remove | sylan/p2/dfs/fs.go:429-455 | The four outcomes and, on success, the entry gone and the directory and its ancestors marked |
| FileTree.FileSystem.Rename | sylan/p2/dfs/fs.go:479-501 | The outcomes and the new table for any two directories, renaming an entry to itself included, which drops it; the invariant holds afterwards if and only if the directories are the same |
| FileTree.FileSystem.SaveNode | sylan/p2/dfs/fs.go:787-799 | One node's new child signatures, version, previous signature and signature, field by field, and exactly its record stored |
| FileTree.FileSystem.TraversalSave | sylan/p2/dfs/fs.go:777-801 | Everything dirty below the node is saved under its Merkle signature, exactly the records of saved nodes are stored, and nothing outside the subtree is touched |
| FileTree.FileSystem.SaveAndPublish | sylan/p2/dfs/fs.go:803-812 | One Flusher round: the head gets the root's Merkle signature, which decodes to the tree in memory if and only if everything was synced |
| FileTree.FileSystem.LoadRoot | sylan/p2/dfs/fs.go:572-589 | Loading the root of a published head establishes the invariant and stands for the tree the head decodes to |
| FileTree.FileSystem.Remount | sylan/p2/dfs/fs.go:572-589 | A new mount stands for the tree the published head decodes to, and satisfies the invariant |
| FileTree.FileSystem.SaveAndRemount | sylan/p2/dfs/fs.go:803-829 | Save, publish, mount again: the tree comes back unchanged if and only if everything was synced |
| TreeSteps.SettledIsSynced | sylan/p2/dfs/fs.go:374-403 | If every unflushed byte is flagged and no file waits to be flushed, everything is synced |
| FileTree.FileSystem.Handle | sylan/p2/dfs/fs.go:224-516 | Every request keeps the invariant, the store and the archive only grow, and only a truncating Setattr can leave unflushed bytes unflagged |
| FileTree.FileSystem.Serve | sylan/p2/dfs/fs.go:803-812 | Over any sequence of requests and saves, every root published at any moment, before or during it, decodes from then on to the tree it had at that moment and no other, all its keys in the store; only a save publishes, namely the root's Merkle signature |
| FileRuns.SetattrAndRemount | sylan/p2/dfs/fs.go:224-269 | From a synced tree, Setattr, a save and a new mount return the tree in memory if and only if no byte was cut off, and return the node's bytes from before in any case |
| FileRuns.CutByteComesBack | sylan/p2/dfs/fs.go:257-263 | A file of one byte, flushed, cut to nothing, flushed, saved and mounted again has its byte back, while memory has none |
| FileWrites.WriteThenFlush | sylan/p2/dfs/fs.go:347-403 | A write flushed at once leaves the buffer laid over the bytes in memory, which is over the bytes the file had if and only if the node was loaded or, on a first write, nothing or at least as much was written (else the bytes outside the range agree) |
| FileWrites.WriteThenLoad | sylan/p2/dfs/fs.go:320-372 | A write to a node not loaded, then a load, leaves the bytes the file had, which is what was written laid over them if and only if it was there already |
| FileWrites.WriteIsLost | sylan/p2/dfs/fs.go:320-372 | A file saved and mounted again, its first byte overwritten before it is loaded and then loaded, has its old bytes |
| FileWrites.RestIsLost | sylan/p2/dfs/fs.go:347-403 | The same file, its first byte overwritten and then flushed, has that byte and nothing after it |
| FileMoves.MovedFileIsForgotten | sylan/p2/dfs/fs.go:479-501 | A file moved from the root into a directory just saved is no longer the root's, is the directory's in memory, and is not in the record that the next save leaves of the directory |
| FileTimes.ChangeThenSave | sylan/p2/dfs/fs.go:503-516 | After a change below the root and a save, the version published has the time of the change and follows the version from before; asked for that time or an earlier one its history skips it, and asked for a time between the two it yields the one before |
| FileTimes.TravelBack | sylan/p2/dfs/fs.go:740-749 | The same of any archived version: no time up to its own leads to it, and a time after its predecessor's leads to that |
| LockPaths.PrefixesAreCuts | sylan/p3/lock/main.go:100-105 | The levels of a named path are the root and the path cut before each slash, itself included, and nothing else |
| LockPaths.PrefixesRise | sylan/p3/lock/main.go:100-105 | Along the levels of any path lengths strictly increase, but for a repeated root |
| LockPaths.PrefixesOfSlashes | sylan/p3/lock/main.go:100-105 | The levels of a path that begins with two slashes are those of the path without the first, the root once more |
| LockPaths.LevelsOfDescendants | sylan/p3/lock/main.go:100-115 | One named path is among the levels of another if and only if the other is it or lies below it |
| LockPaths.OwnLevel | sylan/p3/lock/main.go:112-118 | A path is among its own levels if and only if its first part is not empty or it is what `//` filters to |
| LockPaths.FilteredIsAccepted | sylan/p3/lock/main.go:59-74 | A path passes the filter if and only if it begins with a slash; which requests filter to the root's two forms |
| LockNames.FilteredExactly | sylan/p3/lock/main.go:59-74 | A request filters to a path if and only if it begins with a slash and is that path, or that path and one slash when it ends in one |
| LockNames.SubtreeIsExclusive | sylan/p3/lock/main.go:59-123 | In every run, while an exclusive request for a named path is held, entered with a slash at the end or without, no other of its replica for that path or one below it is, however entered |
| LockNames.SamePathIsExclusive | sylan/p3/lock/main.go:95-99 | For any path at all, a completed exclusive hold excludes every other completed hold of that path |
| LockNames.WaitsExactly | sylan/p3/lock/main.go:95-119 | What lets a request move: a shared one needs its next lock free of writers and of announced ones, an exclusive one the same to announce itself, and then that nobody reads |
| LockNames.SharedNeverWait | sylan/p3/lock/main.go:95-119 | With none but shared requests at its replica, a request in flight can take its next lock |
| LockProtocol.StepInv | sylan/p3/lock/main.go:78-168 | Every arrival, announcement, lock taken and lock given back keeps each lock's state equal to the count of its holders and waiting writers |
| LockProtocol.DropFindsItLocked | sylan/p3/lock/main.go:142-162 | Release never unlocks a lock that is not locked in that mode |
| LockProtocol.RunInv | sylan/p3/lock/main.go:78-168 | In every reachable state every lock's reader count is the number of requests that took it and did not release it |
| LockTheorems.SubtreeExclusion | sylan/p3/lock/main.go:100-123 | A completed exclusive hold on a named path excludes every other completed hold of that replica on it or below it |
| LockCoexistence.ExclusionExactly | sylan/p3/lock/main.go:59-119 | A reachable state with a completed exclusive hold on a path and another below it exists if and only if the path has an empty first part and is not what `//` filters to |
| LockCoexistence.Coexist | sylan/p3/lock/main.go:100-119 | For a path that is not one of its own levels, a reachable state in which it is held exclusively and any other path is held too |
| LockTheorems.WriterIsAlone | sylan/p3/lock/main.go:91-119 | Whoever holds a lock exclusively holds it alone |
| LockTheorems.RootTakesNothingExclusively | sylan/p3/lock/main.go:66-68 | An exclusive request for the root takes no level exclusively |
| LockTheorems.Progress | sylan/p3/lock/main.go:78-127 | With a request in flight, some request can move or some hold is complete, by ranking the whole-path lock below the levels and these by length |
| LockTheorems.StepsRunOut | sylan/p3/lock/main.go:78-168 | Without new arrivals every schedule of steps ends |
| LockTheorems.NothingLeftBehind | sylan/p3/lock/main.go:78-168 | When no step is left every request was served and released and every lock is free |
| LockTheorems.DrainableExactly | sylan/p3/lock/main.go:100-123 | The requests in the server can all be served and released if and only if none is an exclusive one for `//` |
| LockTheorems.NoDeadlock | sylan/p3/lock/main.go:78-127 | No state of any run without such a request is a deadlock |
| LockTheorems.JammedRoot | sylan/p3/lock/main.go:112-119 | Once an exclusive request for `//` has the root, every request of its replica that comes to the root is stuck |
| LockTheorems.JammedForGood | sylan/p3/lock/main.go:112-119 | No event ever moves such a request on |
| LockTheorems.ReleaseRestores | sylan/p3/lock/main.go:129-168 | A request that came and went leaves every lock as if it never had, whatever happened in between |
| LockServer.LockServer.PlanFor | sylan/p3/lock/main.go:100-116 | The accPath loop asks for the planned locks in the planned modes |
| LockServer.LockServer.Enter | sylan/p3/lock/main.go:78-94 | Rejects what the filter rejects, changing nothing; otherwise sets up the tables for the filtered path without changing any lock's state |
| LockServer.LockServer.Try | sylan/p3/lock/main.go:95-119 | One attempt at the next lock moves exactly when the lock allows it, and then takes or announces exactly that lock |
| LockServer.LockServer.Proceed | sylan/p3/lock/main.go:100-123 | Acquire, left alone, goes on until it has everything or its next lock is not to be had |
| LockServer.LockServer.Release | sylan/p3/lock/main.go:129-168 | For any caller: the outcomes of the source, everything being given back if and only if every lock of the plan is found locked in its mode; otherwise what is given back up to the first that is not, where the program stops if no writer has that lock or waits for it and else may go on; and for the request that holds the locks, its Release in the protocol |
| LockServer.ReturnedIsDropped | sylan/p3/lock/main.go:142-162 | Unlocking the plan of a request that has what it asked for is that request's Release in the protocol |

## Left out

- Instance recovery, replica failures and log garbage collection: stated non-goals of the replica.
- The replica runs with N >= 2 in thrifty mode; the other mode resets its counter on every turn of the loop (`sylan/p4/partB/replica/replica.go:184`).
- Links are reliable, FIFO and free of duplicates, and messages are value snapshots; in the program the sender's log entry and the message in its channel are one object.
- A hole in the log counts as no conflict in the scan and as blocked in execution, where the program would fault (`sylan/p4/partB/replica/replica.go:694`, `sylan/p4/partB/replica/replica.go:540`); so does a dependency past the end of a row.
- The graph library's component order and the sort inside a component: `EpaxosOrder.DependenciesFirst` holds for any order whose edges point into the same or an earlier component, and all else for any order at all; `EpaxosLinks` adds that components are sorted by Seq, ties in any order.
- `commitPause`, client channels, triggers, the list that `executeSome` returns, identities in operations, overflow of 64-bit slots and Seqs.
- EpaxosConflicts.ConflictsAreOrdered: says nothing of the two decided Seqs against each other, because on the slow path the earlier one may still be raised past the later.
- Node objects are rows of a table and pointers are positions in it, so a node's kids are younger than it; hard links and `Symlink`, which set no parent pointer, are not modelled.
- FileTree.FileSystem.Serve: takes renames within one directory only, because after another the tree is no longer consistent and nothing more is promised of it.
- SHA-1 and the node encoding are parameters (`TreeStore.Codec`), assumed injective, never the empty key, and invertible (`TreeStore.Sound`): a hash collision, which would let one blob replace another, is outside the model; injectivity on the values stored would do. Blocks and nodes share one key space; the head lives outside it.
- Of a node's attributes those that the modelled operations read or change are kept; one time is used for all nodes marked by one update.
- FileTree.FileSystem.Write: not past the end of a file, where the program faults. Entries are added to and moved into loaded directories only; the program faults on others.
- `goFlush` and a round of the `Flusher` hold one lock in the program and are one step here; the goroutine that a flush request starts is a flush at a later moment.
- TreeHistory.TimedVersion: starts from a node as the store has it; mounting the version found, read-only, is not modelled.
- The chunk-server form of the same tree (`sylan/p3/main.go`) differs in where keys are put and is not modelled separately.
- Data races on the lock server's maps while entries are created; and after a `Release` by a caller that holds nothing, that each lock still counts its holders.
- LockServer.LockServer.Release: says of a lock unlocked in the wrong mode while a writer has it or waits for it (`Astray`) only that everything before it is given back; Go's `Unlock` lets an announced writer pass, its `RUnlock` goes on or ends the program depending on how many readers wait, and what such a lock lets in afterwards is not modelled.
- Fairness: the lock server's steps, and the deliveries and commits of the replicas, are shown to be possible, not to be scheduled.
- gRPC, FUSE, dialing, tickers, flags, printing and metrics; the part A replica, the in-memory file system, the chunk server and the client tools.
