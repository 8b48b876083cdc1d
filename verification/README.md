# Verified models of the concurrent-programming projects

The repository is a collection of C++ programs about concurrency. This project models the
hardest of them in Dafny and proves what they are for:

* **Deadlock-detecting transactions** (project2). A reader/writer lock table with one FIFO
  queue per record, a wait-for graph that is maintained edge by edge, a cycle search, and
  transactions that read one record, write two others, and roll back when a request would
  close a cycle. Main results: every log is serial in commit order, a finished run has exactly
  the commits asked for, the graph is always the blocker function of the queues, a request is
  refused exactly if waiting would close a cycle, nobody ever waits in one, no wake-up is lost,
  and rollback is exact.
* **Hand-over-hand list** (lab11). Main results: linearizability, from the arguments of a call to
  its result, no use of freed memory, no leak and no deadlock, for every number of threads and
  every interleaving, together with the exact condition on the keys.
* **Ticket queue** (lab13). Main results: a dequeue returns the key with which the enqueue of
  the same ticket was called, the calls linearize to a bounded first-in first-out queue, slots have
  one owner, nothing is lost at rest, and a call waits only when the buffer is full or empty.
* **Wait-free snapshot** (project3). Main results: an update stores its argument and every scan
  returns the whole table of one moment, both within a number of own steps that depends on the
  number of cells alone; when that moment lies inside the
  scan, for one scan and for all runs; and how old it can be at most.
* **CLH queue lock with reclamation** (lab10). Main results: mutual exclusion, first come
  first served, no use of freed flags, an exact account of the live flags, one increment for
  every entry and every round.
* **Trie dictionary with chunked search** (project1). Main results: insert and erase agree with
  a map from words to ids, every node serves a word, the exact condition under which erasing
  stays inside the nodes, and a query prints exactly the stored words that occur in it, once
  each, in order of first occurrence.

## How the models are built

`Graphs.dfy`, `RwLockTable.dfy`, `TransactionCode.dfy`, `Trie.dfy` and parts of
`SerialReplay.dfy`, `Snapshot.dfy` and `TrieSearch.dfy` are imperative: classes and methods
with the loops and recursions of the program. Each is proved equal to a specification
function or against a stated property.

Concurrency is modelled by state machines whose runs interleave the steps of any number of
threads. `Transactions.Next`, `FineGrainedList.Next`, `TicketQueue.Next`, `Snapshot.Next` and
`ClhLock.Next` are the step relations, `IsRun` in each module says what a run is, and the
theorems are about every state of every run. The granularity is that of the programs: a
section between locking and unlocking the global mutex of project2, up to a wait on a condition
variable, is one step, and so is every access to a record outside it; in the lab programs each
lock, unlock, access to a pointer, key or flag, allocation and free is one step (a list node is
initialised in the step that allocates it, when no other thread can reach it). A condition variable
may wake a thread at any time without a signal. Freed addresses may be handed out again.

The lock table code and the state machine meet in the specification functions of `LockTables`
(`Request`, `Resume`, `Unlock`, `Woken`): the methods of `RwLockTables.RwLockTable` and
`TransactionCode.Database` are proved to compute them, and the machine of `Transactions` takes
its steps by them.

Fields such as `live`, `succ`, `lin`, `started`, `at`, `given`, `taken`, `history`, `queue`, `swaps`,
`entries` and `made` record the past for the statements. No step depends on them. What they record
is tied to the run itself: to the arguments with which the calls begin, to the states in which
they return and to the lines that the threads pass, in `FineGrainedListCalls`, `TicketQueueCalls`,
`SnapshotCalls`, `SnapshotFreshness` and `ClhLockCounts`.

## Model

| member | source | states |
|---|---|---|
| `Graphs.SubGraphAcyclic` | project2/src/directed_graph.cc:70-110 | removing edges keeps a graph without cycles |
| `Graphs.RotateCycle` | project2/src/directed_graph.cc:144-196 | a cycle is a cycle of each of its nodes, so it does not matter at which member a search starts |
| `Graphs.AcyclicExtend` | project2/src/rw_lock_table.cc:99-107 | if new edges all leave one node and no cycle passes through that node, the whole graph is still acyclic: one search from the requester is enough |
| `Graphs.AcyclicPathDistinct` | project2/src/directed_graph.cc:144-236 | a path in an acyclic graph repeats no node |
| `Graphs.ChainEnds` | project2/src/directed_graph.cc:144-236 | following edges of an acyclic graph ends at a node that waits for nobody |
| `Graphs.BackPathIsCycle` | project2/src/directed_graph.cc:202-236 | a search result read backwards is a path around the cycle |
| `Graphs.NoCycleOutside` | project2/src/directed_graph.cc:144-236 | a failed search is conclusive: a closed visited set without the start node excludes every cycle through it |
| `Graphs.DirectedGraph.constructor` | project2/src/directed_graph.cc:10-15 | the given number of nodes, no edges |
| `Graphs.DirectedGraph.Find` | project2/src/directed_graph.cc:46-53 | position of the destination in an adjacency list, or its length exactly if there is no such edge |
| `Graphs.DirectedGraph.AddEdge` | project2/src/directed_graph.cc:37-68 | fails exactly for unknown nodes; otherwise adds exactly this edge |
| `Graphs.DirectedGraph.RemoveEdge` | project2/src/directed_graph.cc:70-110 | fails exactly for unknown nodes; otherwise removes exactly this edge |
| `Graphs.DirectedGraph.GetCycleRecur` | project2/src/directed_graph.cc:202-236 | terminates on every graph; on success the collected nodes are a backward path to the start, on failure the visited nodes outside the open calls are closed under edges and miss the start |
| `Graphs.DirectedGraph.GetCycle` | project2/src/directed_graph.cc:144-196 | empty exactly when no cycle passes through the node; otherwise the first element is the node, the second has an edge to it, and the list reversed is a path around the cycle |
| `LockQueues.NearestWriter` | project2/src/rw_lock_table.cc:750-784 | if there is a writer ahead there is a nearest one |
| `LockQueues.FreeIffUnblocked` | project2/src/rw_lock_table.cc:124-135 | having no blocker is the same as: a writer at the head of the queue, or a reader with no writer ahead |
| `LockQueues.PushBlk` | project2/src/rw_lock_table.cc:65-66 | joining at the end changes nobody else's blockers |
| `LockQueues.ShiftBlocks` | project2/src/rw_lock_table.cc:491-491 | who blocks whom is unchanged, up to position, when an unblocked entry leaves |
| `LockQueues.RemoveBlk` | project2/src/rw_lock_table.cc:490-491 | when an unblocked entry leaves, exactly its thread disappears from all blocker sets |
| `LockTables.GraphIsWaitFor` | project2/src/rw_lock_table.cc:195-208 | the stored edges of a thread are the blockers over all queues |
| `LockTables.GraphTargets` | project2/src/rw_lock_table.cc:99-99 | edges lead to other, existing threads and never concern thread 0 |
| `LockTables.EnqueueKeeps` | project2/src/rw_lock_table.cc:65-99 | adding the request and its edges keeps graph and queues in agreement |
| `LockTables.GrantKeeps` | project2/src/rw_lock_table.cc:134-135 | granting keeps graph and queues in agreement |
| `LockTables.UnlockKeeps` | project2/src/rw_lock_table.cc:283-557 | releasing keeps graph and queues in agreement, only removes edges, and takes exactly the releaser out of the blocker sets |
| `LockTables.RequestAcyclic` | project2/src/rw_lock_table.cc:99-107 | whatever the outcome of a request, the graph stays acyclic |
| `LockMeaning.LastBlockers` | project2/src/rw_lock_table.cc:87-208 | whom a new request waits for: a reader for the nearest writer, a writer for the entry ahead and, if that is a reader, for the run of readers it ends |
| `LockMeaning.GrantedMeans` | project2/src/rw_lock_table.cc:65-99 | a read request is granted exactly if no writer is queued, a write request exactly if nobody is |
| `LockMeaning.ClosesCycle` | project2/src/directed_graph.cc:144-236 | new out-edges put a thread on a cycle exactly if one of their targets already leads back to it |
| `LockMeaning.DeadlockMeans` | project2/src/rw_lock_table.cc:99-107 | a request is refused exactly if a thread it would have to wait for already waits, directly or not, for the requester |
| `LockMeaning.RequestMeans` | project2/src/rw_lock_table.cc:50-259 | what each outcome of a request leaves in queues, graph, status and reader count |
| `LockMeaning.ResumeMeans` | project2/src/rw_lock_table.cc:110-138 | a sleeper takes its lock exactly if a reader finds no writer, a writer nobody in front of it, and what that changes |
| `LockMeaning.ReleaseMeans` | project2/src/rw_lock_table.cc:283-557 | a release removes its entry and keeps the order of the others; when the record stays read-locked, and the reader count |
| `LockMeaning.SignalsMean` | project2/src/rw_lock_table.cc:401-543 | a release signals exactly the threads that waited for somebody and now wait for nobody |
| `LockMeaning.ReleaseEdges` | project2/src/rw_lock_table.cc:372-543 | a release takes the releaser out of what the others wait for at that record, and nothing else |
| `RwLockTables.ReaderBlk` | project2/src/rw_lock_table.cc:87-99 | a reader waits for the nearest writer ahead and for nobody else |
| `RwLockTables.WriterBlkRun` | project2/src/rw_lock_table.cc:186-208 | a writer behind a run of readers waits for the whole run |
| `RwLockTables.WriterBlkWriter` | project2/src/rw_lock_table.cc:186-208 | a writer behind a writer waits for that writer alone |
| `RwLockTables.ReaderUnlockEdges` | project2/src/rw_lock_table.cc:372-487 | only the first writer behind a granted reader waits for it, and for it alone exactly when the two are alone at the head |
| `RwLockTables.WriterUnlockEdges` | project2/src/rw_lock_table.cc:512-543 | who waits for the writer at the head: the writer behind it or the readers up to the next writer, each for it alone |
| `RwLockTables.UnlockByReader` | project2/src/rw_lock_table.cc:313-493 | the reader's case analysis computes the table, the edges and the signals that the queues prescribe |
| `RwLockTables.UnlockByWriter` | project2/src/rw_lock_table.cc:494-557 | the writer's case analysis computes the table, the edges and the signals that the queues prescribe |
| `RwLockTables.RwLockTable.constructor` | project2/src/rw_lock_table.cc:10-37 | unlocked records, empty queues, no edges |
| `RwLockTables.RwLockTable.FindAheadWriter` | project2/src/rw_lock_table.cc:750-784 | zero exactly if no writer is ahead; for a reader the result is its only blocker |
| `RwLockTables.RwLockTable.FindAheadReaderOrWriter` | project2/src/rw_lock_table.cc:789-820 | zero exactly at the head of the queue, else the thread directly ahead; for a writer, zero exactly if it is unblocked |
| `RwLockTables.RwLockTable.RdLock` | project2/src/rw_lock_table.cc:50-135 | grants, sleeps or reports a deadlock exactly as the queue and the graph prescribe; a refused request leaves the table as it was, returns a cycle that starts with the requester, and signals one thread that waited for it |
| `RwLockTables.RwLockTable.RdLockResume` | project2/src/rw_lock_table.cc:110-138 | a woken reader takes the lock exactly if nobody blocks it |
| `RwLockTables.RwLockTable.RdLockClearAbort` | project2/src/rw_lock_table.cc:565-655 | undoes the request completely and signals one thread with an edge to the victim |
| `RwLockTables.RwLockTable.WrLock` | project2/src/rw_lock_table.cc:144-256 | as for readers, for a write request |
| `RwLockTables.RwLockTable.AddBlockers` | project2/src/rw_lock_table.cc:186-208 | adds an edge to every blocker of the last entry and no other edge |
| `RwLockTables.RwLockTable.WrLockResume` | project2/src/rw_lock_table.cc:226-258 | a woken writer takes the lock exactly if it is at the head |
| `RwLockTables.RwLockTable.WrLockClearAbort` | project2/src/rw_lock_table.cc:657-746 | undoes the request completely and signals one thread with an edge to the victim |
| `RwLockTables.RwLockTable.RemoveBlockers` | project2/src/rw_lock_table.cc:721-737 | removes every out-edge of the victim and no other edge |
| `RwLockTables.RwLockTable.Unlock` | project2/src/rw_lock_table.cc:283-310 | the new table is the one the queues prescribe, and exactly the threads whose last blocker was the releaser are signalled |
| `RwLockTables.RwLockTable.RdUnlock` | project2/src/rw_lock_table.cc:313-493 | the same for a reader |
| `RwLockTables.RwLockTable.FindReader` | project2/src/rw_lock_table.cc:357-368 | the position of the releasing reader |
| `RwLockTables.RwLockTable.RdRelease` | project2/src/rw_lock_table.cc:370-487 | status, removed edge and signal in each case of a reader's release |
| `RwLockTables.RwLockTable.DropFollowerEdge` | project2/src/rw_lock_table.cc:427-437 | behind a run of readers exactly the first writer loses its edge |
| `RwLockTables.RwLockTable.WrUnlock` | project2/src/rw_lock_table.cc:494-557 | the same for a writer |
| `RwLockTables.RwLockTable.SignalFollowers` | project2/src/rw_lock_table.cc:511-543 | the thread behind the writer and the readers up to the next writer lose their edge and are signalled, nobody else |
| `RwLockTables.RwLockTable.SignalReaders` | project2/src/rw_lock_table.cc:526-543 | the inner loop: one edge and one signal for each further reader |
| `LockProtocol.Exclusion` | project2/src/rw_lock_table.cc:134-256 | two threads hold one record only if both hold it for reading |
| `LockProtocol.HoldersOfRecord` | project2/src/rw_lock_table.cc:353-368 | a granted writer is alone and at the head, granted readers have no writer ahead, and status and reader count say so |
| `LockProtocol.AwakeHasNoEdges` | project2/src/rw_lock_table.cc:372-487 | a thread that does not sleep has no stored edge |
| `LockProtocol.SleeperEdges` | project2/src/rw_lock_table.cc:195-208 | a sleeper's stored edges are its blockers at the record it asked for |
| `LockProtocol.RequestAllowed` | project2/src/rw_lock_table.cc:99-99 | a new request meets the duplicate-edge and status assertions |
| `LockProtocol.NobodyHolds` | project2/src/rw_lock_table.cc:243-249 | an empty queue means no holder |
| `LockProtocol.ResumeAllowed` | project2/src/rw_lock_table.cc:243-252 | a woken writer at the head finds the record without holders |
| `LockProtocol.UnlockAllowed` | project2/src/rw_lock_table.cc:285-306 | a holder's release meets every assertion on its way |
| `LockProtocol.SignalKeeps` | project2/src/rw_lock_table.cc:602-602 | a signal that nobody needed changes nothing but a re-check |
| `LockProtocol.RequestKeeps` | project2/src/rw_lock_table.cc:50-259 | a request of any outcome keeps the lock invariant |
| `LockProtocol.ResumeKeeps` | project2/src/rw_lock_table.cc:110-138 | a wake-up, needed or not, keeps the lock invariant |
| `LockProtocol.UnlockWakesSleeper` | project2/src/rw_lock_table.cc:401-406 | a release that unblocks a sleeper signals it |
| `LockProtocol.UnlockKeepsLocks` | project2/src/rw_lock_table.cc:283-557 | a release keeps the lock invariant |
| `LockProtocol.WaitChainEnds` | project2/src/rw_lock_table.cc:266-279 | from every sleeper the waiting chain ends at a thread that can move |
| `LockProtocol.FirstRequestNeverDeadlocks` | project2/src/rw_lock_table.cc:87-107 | a thread without locks cannot close a cycle |
| `SerialReplay.ReplayNext` | project2/marking/main.cc:156-171 | replaying a longer log is replaying the shorter one and then one transaction |
| `SerialReplay.Replay1Means` | project2/marking/main.cc:158-169 | a replayed transaction adds the first record and one to the second, subtracts the first from the third, and touches no other |
| `SerialReplay.AgreesMeans` | project2/marking/main.cc:156-173 | an entry agrees exactly if its values are those of the replay before it and after it |
| `SerialReplay.RecordIsNet` | project2/marking/main.cc:151-171 | in a serial log every record is 100 plus what the logged values say was added to it |
| `SerialReplay.SerialAppend` | project2/marking/main.cc:156-171 | appending an entry that agrees with the replay keeps the log serial |
| `SerialReplay.SumOfReplay` | project2/marking/main.cc:151-171 | each transaction adds one to the sum of the records |
| `SerialReplay.Mark1` | project2/marking/main.cc:156-173 | one round of the marker, for any entry: what it does to every record, and that it agrees exactly if the three logged values are the first record before, the second as written and the third after |
| `SerialReplay.Mark` | project2/marking/main.cc:141-187 | for every log, distinct records or not: the marker complains exactly when some entry differs from its serial replay, for distinct records exactly when some logged value is not that of the replay before (read) or after (written) the entry, whatever number of further records there are; it ends with the replayed records |
| `SerialReplay.MarkWith` | project2/marking/main.cc:151-187 | the same for a given number of records |
| `SerialReplay.VerdictMeans` | project2/marking/main.cc:156-187 | the verdict in terms of the logged values and the replay alone |
| `SerialReplay.CountRecords` | project2/marking/main.cc:141-149 | the least number of records that covers the log |
| `SerialReplay.ReplayPrefix` | project2/marking/main.cc:151-171 | records that the log does not mention do not change the replay of the others |
| `TransactionProofs.ReleaseKeeps` | project2/src/transaction.cc:224-264 | giving back one lock meets the assertions of the lock table and keeps the lock invariant |
| `TransactionProofs.RollbackKeeps` | project2/src/transaction.cc:196-221 | rolling back from any phase releases exactly the granted locks, and every release is allowed |
| `TransactionProofs.ReleaseLocksKeeps` | project2/src/transaction.cc:224-264 | committing releases exactly the three locks, and every release is allowed |
| `TransactionProofs.RollbackRecords` | project2/src/transaction.cc:131-193 | the fall-through undo changes the records by exactly the inverse of the writes of the phases done |
| `TransactionProofs.LocksExclude` | project2/src/transaction.cc:309-425 | a record locked for writing is used by nobody else |
| `TransactionProofs.DataFrame` | project2/src/transaction.cc:309-425 | a thread that changes only what it has locked for writing, and unlocks only what is up to date, keeps the data invariant |
| `TransactionProofs.RollbackData` | project2/src/transaction.cc:131-221 | from any phase the undo restores the committed values |
| `TransactionProofs.CommitData` | project2/src/transaction.cc:426-448 | a commit's log entry is what a serial execution produces at that point |
| `TransactionProofs.AskKeeps` | project2/src/transaction.cc:312-400 | a lock request of any outcome, with rollback on deadlock, keeps the invariant |
| `TransactionProofs.WakeKeeps` | project2/src/rw_lock_table.cc:110-138 | a wake-up, spurious or not, keeps the invariant |
| `TransactionProofs.AccessKeeps` | project2/src/transaction.cc:335-408 | each load and store of a record keeps the invariant |
| `TransactionProofs.OverrunKeeps` | project2/src/transaction.cc:433-441 | a commit beyond the limit rolls back and keeps the invariant |
| `TransactionProofs.CommitKeeps` | project2/src/transaction.cc:426-448 | a commit keeps the invariant |
| `TransactionProofs.BeginKeeps` | project2/src/transaction.cc:283-307 | starting a transaction on three distinct records keeps the invariant |
| `TransactionProofs.InitInv` | project2/src/main.cc:142-169 | the invariant holds initially |
| `TransactionProofs.NextKeeps` | project2/src/transaction.cc:267-466 | every step of every thread keeps the invariant |
| `TransactionProofs.RunInv` | project2/src/transaction.cc:267-466 | the invariant holds in every state of every run |
| `TransactionTheorems.Serializable` | project2/src/transaction.cc:309-448 | in every reachable state the log is numbered 1..k without a gap, at most up to the limit, its entries concern three distinct records and carry the values of the serial replay before (read) and after (written) them, and every record without an uncommitted write holds the replayed value, which is 100 plus what the logged values say was added |
| `TransactionTheorems.MarkerAccepts` | project2/marking/main.cc:141-197 | the marker, applied to the log of any run, finds nothing wrong |
| `TransactionTheorems.QuiescentSum` | project2/src/transaction.cc:131-221 | with no transaction in progress the records sum to 100 each plus one per commit |
| `TransactionTheorems.FinishedRun` | project2/src/transaction.cc:283-448 | a run in which all transaction threads have finished has committed exactly as often as the limit says |
| `TransactionTheorems.LoopTest` | project2/src/transaction.cc:283-283 | a thread starts a transaction exactly while the commits are not used up and leaves the loop between transactions exactly when they are |
| `TransactionTheorems.RollbackIsExact` | project2/src/transaction.cc:131-221 | from any phase in any reachable state the undo restores the written records, changes no other, and leaves all queues |
| `TransactionTheorems.GraphFollowsQueues` | project2/src/rw_lock_table.cc:195-208 | in every reachable state the stored graph is the function of the queues, and acyclic |
| `TransactionTheorems.AssertionsHold` | project2/src/directed_graph.cc:55-61 | in every reachable state the next critical section of every thread meets the assertions of graph and lock table |
| `TransactionTheorems.ReadersWriters` | project2/src/rw_lock_table.cc:134-135 | in every reachable state each record has one writer at the head or readers without a writer ahead, with matching status and count |
| `TransactionTheorems.SleepersAreBlocked` | project2/src/rw_lock_table.cc:110-124 | no lost wake-up: an unsignalled sleeping reader has a writer ahead, an unsignalled sleeping writer has somebody ahead |
| `TransactionTheorems.ReadNeverDeadlocks` | project2/src/transaction.cc:310-330 | a read request never reports a deadlock, so rollback in the read phase is dead code |
| `TransactionTheorems.ReadyMoves` | project2/src/transaction.cc:267-466 | a thread that runs, or sleeps signalled and unblocked, has a step that moves it forward |
| `TransactionTheorems.ChainToReady` | project2/src/rw_lock_table.cc:266-279 | every blocked thread has a waiting chain that ends at such a thread |
| `TransactionTheorems.NeverStuck` | project2/src/rw_lock_table.cc:103-107 | no deadlock: while a thread is unfinished some thread moves forward |
| `TransactionCode.Database.Unlock` | project2/src/rw_lock_table.cc:283-310 | the code of one unlock call has the effect used by the state machine |
| `TransactionCode.Database.Rollback` | project2/src/transaction.cc:196-221 | the fall-through switch has the effect used by the state machine |
| `TransactionCode.Database.RollbackCommit` | project2/src/transaction.cc:131-142 | takes the write of the third record back |
| `TransactionCode.Database.RollbackSecondWrite` | project2/src/transaction.cc:146-161 | takes the write of the second record back and releases the third lock only if it was granted |
| `TransactionCode.Database.RollbackFirstWrite` | project2/src/transaction.cc:165-179 | releases the second lock only if it was granted |
| `TransactionCode.Database.RollbackRead` | project2/src/transaction.cc:180-193 | releases the read lock only if it was granted |
| `TransactionCode.Database.ReleaseLocks` | project2/src/transaction.cc:224-264 | the three releases have the effect used by the state machine |
| `FineGrainedListProofs.NotTouched` | lab11/fine_grained.cpp:51-61 | a node that one thread has locked or keeps private is neither held nor followed by another |
| `FineGrainedListProofs.TestMeaning` | lab11/fine_grained.cpp:56-69 | behind the loop, the key is in the set exactly if the current node has it |
| `FineGrainedListProofs.InsertList` | lab11/fine_grained.cpp:71-72 | a node between its neighbours keeps the list sorted |
| `FineGrainedListProofs.RemoveList` | lab11/fine_grained.cpp:107-107 | unlinking keeps the list sorted |
| `FineGrainedListProofs.PublishKeeps` | lab11/fine_grained.cpp:71-71 | making the new node reachable before its own pointer is set keeps the invariant |
| `FineGrainedListProofs.SetNextKeeps` | lab11/fine_grained.cpp:72-72 | setting the new node's pointer keeps the invariant |
| `FineGrainedListProofs.UnlinkKeeps` | lab11/fine_grained.cpp:107-107 | unlinking keeps the invariant |
| `FineGrainedListProofs.FreeKeeps` | lab11/fine_grained.cpp:107-112 | freeing after both unlocks keeps the invariant |
| `FineGrainedListProofs.AdvanceKeeps` | lab11/fine_grained.cpp:56-61 | moving both pointers on keeps the invariant |
| `FineGrainedListProofs.TestKeeps` | lab11/fine_grained.cpp:56-56 | the loop test keeps the invariant |
| `FineGrainedListProofs.TestKeyKeeps` | lab11/fine_grained.cpp:63-69 | the test for equality behind the loop, with its failing outcomes, keeps the invariant |
| `FineGrainedListProofs.LoadNextKeeps` | lab11/fine_grained.cpp:107-107 | reading the pointer of the node to remove keeps the invariant, and what was read stays right until it is stored |
| `FineGrainedListProofs.BeginKeeps` | lab11/fine_grained.cpp:45-48 | starting a call, with its allocation, keeps the invariant |
| `FineGrainedListProofs.StepKeeps` | lab11/fine_grained.cpp:45-136 | every step of every call keeps the invariant |
| `FineGrainedListProofs.RunInv` | lab11/fine_grained.cpp:34-136 | the invariant holds in every state of every run that leaves the largest integer to the tail |
| `FineGrainedListTheorems.Linearizable` | lab11/fine_grained.cpp:45-136 | the results of all calls that took effect are those of a sequential set, which equals the keys in the list; a call past its effect has its own entry, made after it began |
| `FineGrainedListCalls.ResultsMean` | lab11/fine_grained.cpp:45-136 | an addition succeeds exactly if the last successful addition or removal of its key was not an addition; a removal and a lookup exactly if it was |
| `FineGrainedListCalls.CallTakesEffect` | lab11/fine_grained.cpp:45-136 | from arguments to result: a call takes effect once between its beginning and its return, as its own operation on its own key with the result it returns |
| `FineGrainedListCalls.RestingKeys` | lab11/fine_grained.cpp:34-136 | with no call in progress the nodes between the sentinels hold exactly the keys whose last successful addition or removal was an addition |
| `FineGrainedListTheorems.StepEffect` | lab11/fine_grained.cpp:45-136 | a step adds nothing to the linearization, or the one entry of the moving call; a call returns only after its entry, with its result |
| `FineGrainedListTheorems.LinOnlyGrows` | lab11/fine_grained.cpp:45-136 | entries never change, so calls that do not overlap keep their order |
| `FineGrainedListTheorems.NoUseAfterFree` | lab11/fine_grained.cpp:89-114 | a thread in a call has a next step on allocated nodes, or waits for a mutex |
| `FineGrainedListTheorems.NoLeak` | lab11/fine_grained.cpp:89-114 | with no call in progress exactly the nodes of the list are allocated, all unlocked |
| `FineGrainedListTheorems.WaitingGoesRight` | lab11/fine_grained.cpp:51-61 | a blocked thread waits for a node, and whoever holds that node and is blocked waits for one further on |
| `FineGrainedListTheorems.NeverStuck` | lab11/fine_grained.cpp:51-61 | no deadlock: while a call is in progress some call has a step |
| `FineGrainedListTheorems.RestingList` | lab11/fine_grained.cpp:34-42 | with no call in progress the stored pointers visit exactly the nodes of the list, in strict order, from head to tail |
| `FineGrainedListTheorems.TailIsFound` | lab11/fine_grained.cpp:118-136 | a run in which a lookup of the largest integer succeeds on the empty list |
| `FineGrainedListTheorems.LegalIffTailSpared` | lab11/fine_grained.cpp:34-136 | for any range of keys: the results of all runs are those of a set exactly when the largest integer is not in the range |
| `FineGrainedListTheorems.TailIsFreed` | lab11/fine_grained.cpp:81-115 | a run in which the largest integer is removed: the tail is unlinked and freed, and the next call follows a null pointer |
| `FineGrainedListTheorems.SafeIffTailSpared` | lab11/fine_grained.cpp:34-136 | for any range of keys: no call of any run ever follows a pointer that leads nowhere exactly when the largest integer is not in the range |
| `TicketQueue.SameTicket` | lab13/concurrent_queue.cpp:38-40 | slot and round determine the ticket |
| `TicketQueue.OneOwner` | lab13/concurrent_queue.cpp:57-65 | two calls past their loops work on different slots |
| `TicketQueue.FlagsGrow` | lab13/concurrent_queue.cpp:64-65 | only the owner's store changes a flag, and it adds exactly one although load and store are separate |
| `TicketQueue.OtherCallOk` | lab13/concurrent_queue.cpp:57-84 | no step disturbs what another call knows about its slot |
| `TicketQueue.OwnCallOk` | lab13/concurrent_queue.cpp:57-84 | each step establishes what the call needs next; in particular both separate flag reads together admit only the right round |
| `TicketQueue.FullKeepsAt` | lab13/concurrent_queue.cpp:62-81 | a full slot holds the key of its round's enqueue until the dequeue of the same ticket clears it |
| `TicketQueue.NextKeeps` | lab13/concurrent_queue.cpp:37-84 | every step keeps the invariant |
| `TicketQueue.RunInv` | lab13/concurrent_queue.cpp:32-84 | the invariant holds in every state of every run |
| `TicketQueue.FirstInFirstOut` | lab13/concurrent_queue.cpp:68-84 | the dequeue with a ticket has returned the key of the enqueue with that ticket |
| `TicketQueue.SlotsExclusive` | lab13/concurrent_queue.cpp:57-84 | in every reachable state at most one call owns a slot |
| `TicketQueue.AtRestContents` | lab13/concurrent_queue.cpp:32-84 | with no call in progress the results are the oldest keys in order, the buffer holds the others in order, at most as many as it has slots, and every other slot holds zero |
| `TicketQueue.ReadyAdvances` | lab13/concurrent_queue.cpp:57-84 | a call whose slot is at the right value gets nearer its end with each own step |
| `TicketQueue.ReadyStays` | lab13/concurrent_queue.cpp:57-84 | no other call makes it wait again |
| `TicketQueue.NeverStuck` | lab13/concurrent_queue.cpp:38-76 | some call in progress is ready, unless all are enqueues and the buffer is overfull, or all are dequeues and more was asked for than offered |
| `TicketQueueFifo.LinKeeps` | lab13/concurrent_queue.cpp:37-84 | every step keeps the linearization legal, complete and inside the calls |
| `TicketQueueFifo.OwnerHasEntered` | lab13/concurrent_queue.cpp:57-76 | a call that has left its spin loop has taken effect |
| `TicketQueueFifo.Linearizable` | lab13/concurrent_queue.cpp:37-84 | the calls take effect as the operations of a first-in first-out queue that never holds more keys than there are slots; each call does so once, after it began and before it returns, and every finished dequeue with its result |
| `TicketQueueFifo.ResultIsEvent` | lab13/concurrent_queue.cpp:62-84 | the key of an enqueue, and what a dequeue is about to return, are those of its operation |
| `TicketQueueFifo.LinOnlyGrows` | lab13/concurrent_queue.cpp:37-84 | nothing that has taken effect changes, and tickets keep their keys |
| `TicketQueueFifo.RealTimeOrder` | lab13/concurrent_queue.cpp:37-84 | calls that do not overlap take effect in their order |
| `TicketQueueCalls.KeyDelivered` | lab13/concurrent_queue.cpp:37-84 | the key an enqueue is called with stays recorded under the ticket it draws and is what the dequeue with that ticket returns |
| `TicketQueueCalls.TicketsInOrder` | lab13/concurrent_queue.cpp:38-72 | tickets follow the order in which the calls begin |
| `TicketQueueCalls.DequeueReturns` | lab13/concurrent_queue.cpp:37-84 | from arguments to result: a dequeue returns the key with which the enqueue was called that drew the same ticket |
| `TicketQueueCalls.CallTakesEffect` | lab13/concurrent_queue.cpp:37-84 | a call takes effect once between its beginning and its return: an enqueue by putting its argument, a dequeue by getting what it returns |
| `TicketQueueCalls.FifoMeans` | lab13/concurrent_queue.cpp:37-84 | a history is that of a bounded first-in first-out queue exactly if at all times the keys got are the first of the keys put and at most the size behind |
| `TicketQueueCalls.RunInOrder` | lab13/concurrent_queue.cpp:37-84 | in every run that holds, and the keys put are the first that the enqueues were called with, their number given by the two ticket counters |
| `Snapshot.CompareCollects` | project3/src/WFSnapshot.cc:69-92 | the comparison loop finds the first cell that moved and decides by whether it had moved before |
| `Snapshot.Sandwich` | project3/src/WFSnapshot.cc:65-70 | two readings with one stamp around an instant are the cell at that instant |
| `Snapshot.CleanCollect` | project3/src/WFSnapshot.cc:97-108 | two equal collects are the whole table between them |
| `Snapshot.ResultWasTable` | project3/src/WFSnapshot.cc:59-110 | whatever a scan returns was the whole table at some instant |
| `Snapshot.StoreSnaps` | project3/src/WFSnapshot.cc:47-56 | so is every snapshot that an update stores |
| `Snapshot.NextKeeps` | project3/src/WFSnapshot.cc:28-110 | every step keeps the invariant |
| `Snapshot.RunInv` | project3/src/WFSnapshot.cc:19-110 | the invariant holds in every state of every run |
| `Snapshot.HistoryIsRun` | project3/src/WFSnapshot.cc:47-56 | the recorded instants are the tables the run went through |
| `Snapshot.ScansAreConsistent` | project3/src/WFSnapshot.cc:59-110 | every returned array equals the whole table in one earlier state of the run, the one at which it was taken |
| `Snapshot.StoredSnapsAreConsistent` | project3/src/WFSnapshot.cc:47-56 | every stored array equals the whole table in one earlier state of the run |
| `Snapshot.CleanScansAreCurrent` | project3/src/WFSnapshot.cc:97-108 | a scan that ends on two equal collects returns the table as it was between them, after the scan began |
| `Snapshot.FewCollects` | project3/src/WFSnapshot.cc:63-89 | at most two collects more than there are cells, one fewer if the caller owns a cell |
| `Snapshot.WaitFree` | project3/src/WFSnapshot.cc:47-110 | every own step brings a call nearer its end, and other threads' steps do not touch that bound |
| `Snapshot.NeverBlocked` | project3/src/WFSnapshot.cc:47-110 | a thread in a call always has a next step |
| `SnapshotCalls.UpdateStores` | project3/src/WFSnapshot.cc:47-56 | from argument to table, in every interleaving: the step in which an update returns puts the value it was called with into its own cell, raises the stamp by one and changes no other cell; until then its cell stays as it was |
| `SnapshotCalls.ReportReturns` | project3/src/WFSnapshot.cc:59-110 | a scan changes nothing when it returns, and returns cell by cell the table of one state, of one since it began if it ends on two equal collects |
| `SnapshotCalls.ValuesAreArguments` | project3/src/WFSnapshot.cc:47-56 | a written cell holds the argument of an update that its owner began before |
| `SnapshotCalls.CallIsShort` | project3/src/WFSnapshot.cc:47-110 | whatever the others do, a call is over within (n + 1)(n + 2) + 1 own steps for n cells |
| `SnapshotFreshness.CurrentIffTakenSince` | project3/src/WFSnapshot.cc:69-108 | for each single scan: it returns a table it lived through exactly if it ended on two equal collects, or the update whose array it borrows had taken that array since the scan began |
| `SnapshotFreshness.ResultSince` | project3/src/WFSnapshot.cc:71-80 | as long as all calls in progress began, and all arrays stored were taken, since some instant, so was what a scan returns |
| `SnapshotFreshness.NeverOlderThanRest` | project3/src/WFSnapshot.cc:59-110 | however stale, what a scan returns is never older than the last state in which no call was in progress |
| `SnapshotStaleness.CollectAlone` | project3/src/WFSnapshot.cc:28-37 | an undisturbed collect copies the table |
| `SnapshotStaleness.UpdateAlone` | project3/src/WFSnapshot.cc:47-56 | an undisturbed update stores its value together with the table it replaces |
| `SnapshotStaleness.BorrowedScanCanBeStale` | project3/src/WFSnapshot.cc:71-80 | from every state with two idle owners a run leads to a scan whose borrowed result misses an update that its own thread had finished before |
| `SnapshotStaleness.SmallIsCurrent` | project3/src/WFSnapshot.cc:59-110 | with at most one cell every scan returns the table of an instant since it began |
| `SnapshotStaleness.CurrentIffSmall` | project3/src/WFSnapshot.cc:59-110 | that holds for all runs exactly if there are fewer than two cells |
| `ClhLock.OnlyHeadEnters` | lab10/prac_CLH_lock.cpp:26-26 | a waiter sees a raised flag exactly if it is not the head of the queue, and the flag it reads is live |
| `ClhLock.SwapQueue` | lab10/prac_CLH_lock.cpp:23-25 | the swap appends the thread to the chain of flags and keeps the order |
| `ClhLock.LowerQueue` | lab10/prac_CLH_lock.cpp:35-35 | lowering the flag passes the lock to the next in the chain |
| `ClhLock.FreeHeap` | lab10/prac_CLH_lock.cpp:33-34 | freeing the predecessor's flag removes exactly one live flag that nobody else can reach |
| `ClhLock.NextKeeps` | lab10/prac_CLH_lock.cpp:22-47 | every step keeps the invariant |
| `ClhLock.RunInv` | lab10/prac_CLH_lock.cpp:22-53 | the invariant holds in every state of every run |
| `ClhLock.MutualExclusion` | lab10/prac_CLH_lock.cpp:41-44 | at most one thread is inside |
| `ClhLock.FirstComeFirstServed` | lab10/prac_CLH_lock.cpp:25-26 | the order of entries is the order of the swaps |
| `ClhLockCounts.ListsAreRun` | lab10/prac_CLH_lock.cpp:25-26 | the recorded swaps and entries are those of the run, in its order |
| `ClhLockCounts.ServedInOrder` | lab10/prac_CLH_lock.cpp:25-26 | the threads leave their spin loops in the order in which they swapped |
| `ClhLock.NoUseAfterFree` | lab10/prac_CLH_lock.cpp:22-36 | every flag that is read, written or freed is live, so none is freed twice |
| `ClhLock.LiveFlags` | lab10/prac_CLH_lock.cpp:22-36 | live flags number one more than the threads that have allocated and not yet freed their predecessor |
| `ClhLock.NoLeak` | lab10/prac_CLH_lock.cpp:64-64 | with every thread outside, the lowered flag at the tail is the only one left to free |
| `ClhLock.CounterIsExact` | lab10/prac_CLH_lock.cpp:42-42 | the counter is the sum of the increments that the threads have made, although load and store are separate; `ClhLockCounts.CountsEntries` and `RoundsMade` say what they have made |
| `ClhLockCounts.CountsEntries` | lab10/prac_CLH_lock.cpp:41-44 | no increment is lost or made twice: the counter is the number of entries less the threads between entry and store, and each thread has made one increment per entry, less one while it is there |
| `ClhLockCounts.OneCounting` | lab10/prac_CLH_lock.cpp:41-44 | entries are never more than one ahead of the counter |
| `ClhLockCounts.RoundsMade` | lab10/prac_CLH_lock.cpp:40-46 | each thread has made one increment per round of its loop, and one more while it unlocks |
| `ClhLockCounts.WorkIsCounted` | lab10/prac_CLH_lock.cpp:38-62 | when every thread is back at the beginning of its loop after the same number of rounds, the counter is threads times rounds |
| `ClhLock.WaitsExactlyBehindHead` | lab10/prac_CLH_lock.cpp:26-26 | in every reachable state a waiter spins exactly while it is not the head |
| `ClhLock.HeadMoves` | lab10/prac_CLH_lock.cpp:22-47 | the head of a non-empty queue always has a step that moves it on |
| `Tries.WalkFinds` | project1/src/trie.cc:221-242 | every node is found by walking its path from the root |
| `Tries.LookupAgrees` | project1/src/trie.cc:221-242 | walking a word ends at a node with an id exactly if the word is stored, and the id is its own |
| `Tries.LeadsToWord` | project1/src/trie.cc:69-123 | every node below the root lies on the way to a stored word |
| `Tries.OverrunsIff` | project1/src/trie.cc:69-123 | for every word: erasing indexes outside the children exactly if the word is not stored and its leading letters begin a stored word or are none |
| `Tries.ReachedIff` | project1/src/trie.cc:98-104 | there is a node for some letters exactly if they begin a stored word or are none |
| `Tries.StoredLower` | project1/src/trie.cc:33-51 | stored words consist of letters |
| `Tries.Dictionary.constructor` | project1/src/trie.cc:21-29 | an empty dictionary, ids start at one |
| `Tries.Dictionary.Insert` | project1/src/trie.cc:33-51 | stays inside the nodes exactly for words of letters; then maps the word to the next id and changes nothing else, ids stay positive and distinct, and every node keeps serving a word |
| `Tries.Dictionary.Descend` | project1/src/trie.cc:39-46 | to the child for a letter, creating it if it is missing |
| `Tries.Dictionary.Mark` | project1/src/trie.cc:50-50 | the word's node takes the next id |
| `Tries.Dictionary.ChildExists` | project1/src/trie.cc:55-64 | whether the node has a child |
| `Tries.Dictionary.EraseHere` | project1/src/trie.cc:78-92 | at the end of the word: release the childless node, or clear its id |
| `Tries.Dictionary.ReleaseIdle` | project1/src/trie.cc:104-118 | on the way back a node without id and children is released, and nothing else |
| `Tries.Dictionary.EraseAt` | project1/src/trie.cc:69-123 | for every word: true exactly if it was stored, and removes exactly it; otherwise nothing changes, and it indexes outside the children exactly as the nodes and the rest of the word say; only the owner of the slot may be left without purpose |
| `Tries.Dictionary.Erase` | project1/src/main.cc:125-134 | for every word: erased exactly if stored, out of range exactly if not erasable, otherwise missing; with a new root when the old one was released; every node again serves a word |
| `Tries.EraseBeginning` | project1/src/trie.cc:98-104 | a reachable failure: insert "ab", erase "a" |
| `Tries.EraseCapital` | project1/src/trie.cc:98-104 | a reachable failure: erase "A" from the empty dictionary |
| `TrieSearch.SearchFrom` | project1/src/trie.cc:216-246 | stays inside the nodes exactly if no other character than a letter is reached; then the answers from one start position are exactly the stored words that begin there |
| `TrieSearch.SearchSubstring` | project1/src/trie.cc:192-246 | the same for one thread's share of start positions |
| `TrieSearch.AnswersSplit` | project1/src/trie.cc:288-298 | the answers of adjoining chunks are the answers of their union |
| `TrieSearch.Search` | project1/src/trie.cc:276-298 | the chunks of all threads together cover every start position once |
| `TrieSearch.InsideIffLower` | project1/src/trie.cc:221-228 | a query stays inside the nodes exactly if it consists of letters |
| `TrieSearch.Merge` | project1/src/trie.cc:349-355 | concatenation in thread order |
| `TrieSearch.BetweenContents` | project1/src/trie.cc:204-246 | an answer is in the list exactly if it is an occurrence of a stored word with its id |
| `TrieSearch.BetweenIncreasing` | project1/src/trie.cc:349-379 | the merged answers are strictly sorted by start and length |
| `TrieSearch.SortChangesNothing` | project1/src/trie.cc:363-379 | so any sort by that order leaves them as they are |
| `TrieSearch.Print` | project1/src/trie.cc:388-414 | exactly the answers that repeat no id are printed, in order |
| `TrieSearch.FirstAnswer` | project1/src/trie.cc:401-405 | an answer that repeats no id is the first occurrence of its word |
| `TrieSearch.QueryIsCorrect` | project1/src/trie.cc:263-423 | what is printed are the stored words that occur in the query, each once, ordered by first occurrence and then length |
| `TrieSearch.SearchAllPatterns` | project1/src/trie.cc:263-423 | the whole query, from forking to printing, is in range exactly if it consists of letters, and then produces that list, whatever correct sort is used |

## Where code and promise differ

* Snapshot: when a cell has moved twice, `scan` returns the array stored in the older of the two
  collects it compares (line 74 of `project3/src/WFSnapshot.cc`), and that array may be older than
  the scan. Consistency and wait-freedom hold all the same; currency does not always.
  `SnapshotFreshness.CurrentIffTakenSince` gives the exact condition for one scan and
  `SnapshotStaleness.CurrentIffSmall` for all runs. `SnapshotFreshness.NeverOlderThanRest` bounds
  the age, and `SnapshotStaleness.BorrowedScanCanBeStale` reaches that bound.
* List: the tail's key is an ordinary integer, so calls about the largest integer meet the
  tail. `FineGrainedListTheorems.LegalIffTailSpared` and `SafeIffTailSpared` give the exact
  condition for results and for memory. The key of the head is never read, so the smallest integer
  needs no exception.
* Trie: the children are indexed with whatever character comes, and, when a word to erase ends at a
  node without an id, with the terminating zero. `Tries.OverrunsIff` gives the exact condition for
  erasing, `Insert` and `TrieSearch.InsideIffLower` those for inserting and searching. The methods
  report an index outside the children as an outcome of its own.
* Transactions: the rollback of a transaction in its read phase is never executed
  (`TransactionTheorems.ReadNeverDeadlocks`).

## Left out

- Weak memory: all machines are sequentially consistent; missing barriers and torn accesses to single fields are not modelled.
- After an index outside the children of a trie node nothing more is said: the model stops there with that outcome.
- Snapshot cells: reading one cell and writing one cell with its stamp, value and array is one step; the program touches the fields one after the other.
- Fairness and running time: progress is stated as the existence of a step or as a bound on own steps; a transaction may be aborted again and again.
- Integer width: all integers are unbounded, so the overflow exits of `transaction`, the truncation of tickets to `int` and the wrap-around of word ids, stamps and commit numbers are not modelled. The list keys are the 32-bit range.
- Lab11 sentinels: their mutexes are used without initialisation in the program; the model takes them as unlocked.
- Ticket queue size: any positive number of slots, not only 1024.
- Threads of project1: searching is fork and join; the sleep and wake handshake of the pool is not modelled. `std::sort` is a parameter that sorts correctly. The bar-separated line and the `-1` for no result are represented by the list of words.
- Random choices: the record numbers of a transaction are any three distinct records.
- Input, output, argument parsing, log files and their parsing, sorting of the parsed log, the progress animation, thread creation and joining.
- `erase_all` in project1 and the destructors: they only free what is left.
- lab11/optimistic.cpp: its `list_add` never leaves its loop after a successful link, so there is no set specification to prove. lab11/coarse_grained.cpp, lab13/concurrent_queue_giant.cpp, the other locks of lab10 and labs 01 to 07 would only add easy members.
- project4: vendored database clients.
